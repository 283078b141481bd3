/** The frame buffer: a byte buffer with its colour space, its dimensions and an
    ownership flag. An owning frame holds a private copy of the bytes; a non-owning
    frame holds a pointer into storage that belongs to someone else. */
module VideoFrames {

  datatype ColourSpace = BGRA | I420 | UYVY

  /** The first `len` bytes behind a (possibly null) pointer. */
  function Prefix(src: array?<bv8>, len: nat): (s: seq<bv8>)
    reads src
    requires src == null ==> len == 0
    requires src != null ==> len <= src.Length
    ensures |s| == len
  {
    if src == null then [] else src[..len]
  }

  class VideoFrame {
    var colour: ColourSpace
    var manage: bool          // owns `data` (copies on initialisation) or aliases it
    var data: array?<bv8>
    var length: nat
    var cols: nat
    var rows: nat

    /** `length` bytes are readable behind `data`. */
    ghost predicate Valid()
      reads this
    {
      (data == null ==> length == 0) && (data != null ==> length <= data.Length)
    }

    /** The bytes the frame presents. */
    function Bytes(): seq<bv8>
      reads this, data
      requires Valid()
    {
      Prefix(data, length)
    }

    /** An empty I420 frame that will own (or alias) the data it is later given. */
    constructor EmptyI420(manageData: bool)
      ensures Valid() && colour == I420 && manage == manageData
      ensures data == null && length == 0 && cols == 0 && rows == 0
    {
      colour := I420;
      manage := manageData;
      data := null;
      length, cols, rows := 0, 0, 0;
    }

    /** An empty frame of a given colour space (the base frame class). */
    constructor OfColour(c: ColourSpace, manageData: bool)
      ensures Valid() && colour == c && manage == manageData
      ensures data == null && length == 0 && cols == 0 && rows == 0
    {
      colour := c;
      manage := manageData;
      data := null;
      length, cols, rows := 0, 0, 0;
    }

    /** The data constructor: the same state as `EmptyI420(manageData)` followed by
        `InitFromPointer(src, len, c, r)`. */
    constructor I420FromPointer(src: array?<bv8>, len: nat, c: nat, r: nat, manageData: bool)
      requires src == null ==> len == 0
      requires src != null ==> len <= src.Length
      ensures Valid() && colour == I420 && manage == manageData
      ensures length == len && cols == c && rows == r
      ensures Bytes() == Prefix(src, len)
      ensures manageData ==> fresh(data) && data.Length == len
      ensures !manageData ==> data == src
    {
      colour := I420;
      manage := manageData;
      data := null;
      length, cols, rows := 0, 0, 0;
      new;
      InitFromPointer(src, len, c, r);
    }

    /** Records length and dimensions exactly as given (nothing checks that they agree),
        then either copies `len` bytes into fresh storage (owning frame) or stores the
        caller's pointer (non-owning frame). */
    method InitFromPointer(src: array?<bv8>, len: nat, c: nat, r: nat)
      requires src == null ==> len == 0
      requires src != null ==> len <= src.Length
      modifies this
      ensures Valid()
      ensures colour == old(colour) && manage == old(manage)
      ensures length == len && cols == c && rows == r
      ensures Bytes() == Prefix(src, len)
      ensures manage ==> fresh(data) && data.Length == len
      ensures !manage ==> data == src
    {
      length, cols, rows := len, c, r;
      if manage {
        var copy := new bv8[len];
        forall i | 0 <= i < len {
          copy[i] := src[i];
        }
        data := copy;
      } else {
        data := src;
      }
    }

    /** Copy assignment: the frame becomes owning first, so it always ends up with a
        private copy of `rhs`'s bytes, whether or not `rhs` owned them. */
    method Assign(rhs: VideoFrame)
      requires rhs.Valid()
      modifies this
      ensures Valid() && manage && fresh(data)
      ensures colour == old(colour)
      ensures length == old(rhs.length) && cols == old(rhs.cols) && rows == old(rhs.rows)
      ensures Bytes() == old(rhs.Bytes())
    {
      manage := true;
      InitFromPointer(rhs.data, rhs.length, rhs.cols, rhs.rows);
    }
  }

  /** A copy taken from a non-owning alias keeps its bytes after the aliased storage
      is overwritten. */
  method CopyOutlivesSource(storage: array<bv8>, len: nat, c: nat, r: nat, i: nat, b: bv8)
    returns (alias: VideoFrame, copy: VideoFrame)
    requires len <= storage.Length && i < len
    modifies storage
    ensures fresh(alias) && fresh(copy)
    ensures !alias.manage && alias.data == storage && copy.manage
    ensures copy.Valid() && copy.Bytes() == old(storage[..len])
    ensures alias.Valid() && alias.Bytes() == old(storage[..len])[i := b]
  {
    alias := new VideoFrame.I420FromPointer(storage, len, c, r, false);
    copy := new VideoFrame.EmptyI420(false);
    copy.Assign(alias);
    storage[i] := b;
    assert alias.Bytes() == storage[..len];
  }
}
