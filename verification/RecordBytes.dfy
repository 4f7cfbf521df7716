/** What entering and unlinking a name write, byte by byte: the layout of dir_entry_ext2_t and the bytes that change. */
module RecordBytes {
  import opened Bytes
  import opened DirRecords

  /** The eight bytes at o as the fields of a record: inode and rec_len little-endian, then name_len, then file_type. */
  ghost predicate HeaderAt(c: seq<byte>, o: nat, inode: nat, recLen: nat, nameLen: nat, fileType: nat) {
    && o + 8 <= |c|
    && c[o] as nat + 0x100 * c[o + 1] as nat + 0x1_0000 * c[o + 2] as nat + 0x100_0000 * c[o + 3] as nat == inode
    && c[o + 4] as nat + 0x100 * c[o + 5] as nat == recLen
    && c[o + 6] == nameLen && c[o + 7] == fileType
  }

  ghost predicate ZeroBytes(c: seq<byte>, a: nat, b: nat) {
    b <= |c| && forall k | a <= k < b :: c[k] == 0
  }

  /** EntryAt reads a record's fields at these bytes. */
  lemma EntryBytes(c: seq<byte>, o: nat)
    requires o + 8 <= |c|
    ensures HeaderAt(c, o, EntryAt(c, o).inode, EntryAt(c, o).recLen, EntryAt(c, o).nameLen, EntryAt(c, o).fileType)
  {
  }

  lemma EntryOfBytes(c: seq<byte>, o: nat, inode: nat, recLen: nat, nameLen: nat, fileType: nat)
    requires HeaderAt(c, o, inode, recLen, nameLen, fileType)
    ensures EntryAt(c, o) == DirEntry(inode, recLen, nameLen, fileType)
  {
  }

  /** Encode writes them there. */
  lemma EncodeBytes(e: Entry)
    requires EntryFits(e)
    ensures HeaderAt(Encode(e), 0, e.inode, e.recLen, e.nameLen, e.fileType)
  {
    WordDigits(e.inode);
  }

  /** What a record with a name of n bytes takes: header and name, rounded up to four bytes. */
  function Taking(n: nat): nat {
    (8 + n + 3) / 4 * 4
  }

  /** How much of record o its own name does not need; of a null record all is free. */
  function Spare(c: seq<byte>, o: nat): int {
    EntryAt(c, o).recLen - Kept(c, o)
  }

  function Kept(c: seq<byte>, o: nat): nat {
    if EntryAt(c, o).inode == 0 then 0 else Taking(EntryAt(c, o).nameLen)
  }

  /** Bytes [o, o + recLen) are a record: header, name, zeros. */
  ghost predicate RecordAt(c: seq<byte>, o: nat, inode: nat, recLen: nat, name: Name, fileType: nat) {
    && HeaderAt(c, o, inode, recLen, |name|, fileType) && 8 + |name| <= recLen && o + recLen <= |c|
    && c[o + 8..o + 8 + |name|] == name && ZeroBytes(c, o + 8 + |name|, o + recLen)
  }

  /** Entering `name` took c to c': the first record with enough to spare keeps what it needs, and the rest of it
      becomes the new record; where none has, the new record is a block behind the others. No other byte changes. */
  ghost predicate RecordMade(bs: nat, c: seq<byte>, c': seq<byte>, inode: nat, fileType: nat, name: Name) {
    bs > 0 && exists o :: MadeAt(bs, c, c', inode, fileType, name, o)
  }

  ghost predicate MadeAt(bs: nat, c: seq<byte>, c': seq<byte>, inode: nat, fileType: nat, name: Name, o: nat)
    requires bs > 0
  {
    && (forall r: nat | RecordIn(c, bs, r) && r < o :: Spare(c, r) < Taking(|name|))
    && if o < |c| then
         && RecordIn(c, bs, o) && Spare(c, o) >= Taking(|name|) && o + EntryAt(c, o).recLen <= |c'| == |c|
         && RecordAt(c', o + Kept(c, o), inode, Spare(c, o), name, fileType)
         && (EntryAt(c, o).inode != 0 ==>
               HeaderAt(c', o, EntryAt(c, o).inode, Kept(c, o), EntryAt(c, o).nameLen, EntryAt(c, o).fileType))
         && (forall k | 0 <= k < |c| && !(o <= k < o + 8) && !(o + Kept(c, o) <= k < o + EntryAt(c, o).recLen) ::
               c'[k] == c[k])
       else
         && o == |c| && |c'| == |c| + bs && RecordAt(c', |c|, inode, bs, name, fileType)
         && (forall k | 0 <= k < |c| :: c'[k] == c[k])
  }

  /** Unlinking `name` took c to c'. A record inside a block is taken over by the one before it, whose length grows by
      its own, and its bytes become 0; one at the start of a block becomes a null record of the same length; the first
      record of all becomes zeros, length and all. No other byte changes. */
  ghost predicate RecordGone(bs: nat, c: seq<byte>, c': seq<byte>, name: Name) {
    bs > 0 && exists p, o :: GoneAt(bs, c, c', name, p, o)
  }

  ghost predicate GoneAt(bs: nat, c: seq<byte>, c': seq<byte>, name: Name, p: nat, o: nat)
    requires bs > 0
  {
    var len := EntryAt(c, o).recLen;
    && RecordIn(c, bs, o) && EntryAt(c, o).inode != 0 && NameAt(c, o) == name && |c'| == |c|
    && if o == 0 then
         ZeroBytes(c', 0, len) && SameOutside(c, c', 0, len)
       else if o % bs == 0 then
         RecordAt(c', o, 0, len, [], 0) && SameOutside(c, c', o, o + len)
       else
         && RecordIn(c, bs, p) && o == p + EntryAt(c, p).recLen
         && HeaderAt(c', p, EntryAt(c, p).inode, EntryAt(c, p).recLen + len, EntryAt(c, p).nameLen,
                     EntryAt(c, p).fileType)
         && ZeroBytes(c', o, o + len)
         && (forall k | 0 <= k < |c| && !(p <= k < p + 8) && !(o <= k < o + len) :: c'[k] == c[k])
  }

  lemma GoneIs(bs: nat, c: seq<byte>, c': seq<byte>, name: Name, p: nat, o: nat)
    requires bs > 0 && GoneAt(bs, c, c', name, p, o)
    ensures RecordGone(bs, c, c', name)
  {
    hide GoneAt;
  }

  lemma MadeIs(bs: nat, c: seq<byte>, c': seq<byte>, inode: nat, fileType: nat, name: Name, o: nat)
    requires bs > 0 && MadeAt(bs, c, c', inode, fileType, name, o)
    ensures RecordMade(bs, c, c', inode, fileType, name)
  {
    hide MadeAt;
  }

  lemma PlaceMade(bs: nat, c: seq<byte>, c': seq<byte>, inode: nat, fileType: nat, name: Name) returns (o: nat)
    requires RecordMade(bs, c, c', inode, fileType, name)
    ensures bs > 0 && MadeAt(bs, c, c', inode, fileType, name, o)
  {
    hide MadeAt;
    o :| MadeAt(bs, c, c', inode, fileType, name, o);
  }

  lemma PlaceGone(bs: nat, c: seq<byte>, c': seq<byte>, name: Name) returns (p: nat, o: nat)
    requires RecordGone(bs, c, c', name)
    ensures bs > 0 && GoneAt(bs, c, c', name, p, o)
  {
    hide GoneAt;
    p, o :| GoneAt(bs, c, c', name, p, o);
  }

  // ---- the writes ----

  /** A header laid over the content. */
  lemma HeaderLaid(c: seq<byte>, o: nat, e: Entry)
    requires EntryFits(e) && o + 8 <= |c|
    ensures HeaderAt(Overlay(c, o, Encode(e)), o, e.inode, e.recLen, e.nameLen, e.fileType)
  {
    EncodeBytes(e);
    hide Encode;
    var r := Overlay(c, o, Encode(e));
    assert forall k | 0 <= k < 8 :: r[o + k] == Encode(e)[k];
    assert r[o + 0] == Encode(e)[0];
  }

  lemma HeaderSame(c: seq<byte>, c': seq<byte>, o: nat, inode: nat, recLen: nat, nameLen: nat, fileType: nat)
    requires HeaderAt(c, o, inode, recLen, nameLen, fileType) && o + 8 <= |c'|
    requires forall k | o <= k < o + 8 :: c'[k] == c[k]
    ensures HeaderAt(c', o, inode, recLen, nameLen, fileType)
  {
  }

  /** A whole record written at o. */
  lemma RecordLaid(c: seq<byte>, o: nat, e: Entry, name: Name)
    requires EntryFits(e) && 8 + |name| <= e.recLen && e.nameLen == |name|
    ensures RecordAt(PutRecord(c, o, e, name), o, e.inode, e.recLen, name, e.fileType)
    ensures forall k | 0 <= k < |c| && !(o <= k < o + e.recLen) ::
      k < |PutRecord(c, o, e, name)| && PutRecord(c, o, e, name)[k] == c[k]
  {
    PutRecordReads(c, o, e, name);
    var c1 := Overlay(c, o, Encode(e));
    var body := name + Zeros(e.recLen - 8 - |name|);
    var r := PutRecord(c, o, e, name);
    HeaderIs();
    assert r == Overlay(c1, o + 8, body);
    hide PutRecord;
    EntryBytes(r, o);
    hide HeaderAt, EntryAt, Encode;
    assert forall k | 0 <= k < |body| :: r[o + 8 + k] == body[k];
    assert r[o + 8..o + 8 + |name|] == name;
    forall k | o + 8 + |name| <= k < o + e.recLen
      ensures r[k] == 0
    {
      assert r[o + 8 + (k - o - 8)] == body[k - o - 8];
    }
  }

  lemma UsedIsKept(c: seq<byte>, o: nat)
    ensures UsedLen(EntryAt(c, o)) == Kept(c, o) && forall n :: NeedLen(n) == Taking(n)
    ensures Kept(c, o) <= EntryAt(c, o).recLen ==> SlackLen(EntryAt(c, o)) == Spare(c, o)
  {
  }

  lemma MadeInside(c: seq<byte>, bs: nat, o: nat, inode: nat, fileType: nat, name: Name)
    requires bs == 1024 || bs == 2048
    requires RecordIn(c, bs, o) && NameOk(name) && 0 < inode < TWO32 && fileType < 0x100
    requires SlackLen(EntryAt(c, o)) >= NeedLen(|name|)
    requires forall r: nat | RecordIn(c, bs, r) && r < o :: SlackLen(EntryAt(c, r)) < NeedLen(|name|)
    ensures MadeAt(bs, c, SplitInsert(c, o, inode, fileType, name), inode, fileType, name, o)
  {
    hide *;
    forall r: nat | RecordIn(c, bs, r) && r < o
      ensures Spare(c, r) < Taking(|name|)
    {
      RecordBounds(c, bs, r);
      UsedIsKept(c, r);
    }
    RecordBounds(c, bs, o);
    UsedIsKept(c, o);
    NeedLenFacts(|name|);
    NameFits(name);
    HeaderIs();
    InsideBlock(c, bs, o);
    var e, used := EntryAt(c, o), UsedLen(EntryAt(c, o));
    var new' := DirEntry(inode, SlackLen(e), |name|, fileType);
    EntryFitsIs(inode, SlackLen(e), |name|, fileType);
    var c' := SplitInsert(c, o, inode, fileType, name);
    if e.inode == 0 {
      NullUsed(e);
      SplitNullIs(c, o, inode, fileType, name);
      RecordLaid(c, o, new', name);
      PutRecordReads(c, o, new', name);
    } else {
      var c1 := Overlay(c, o, Encode(e.(recLen := used)));
      LiveNeeds(e);
      SplitLiveIs(c, o, inode, fileType, name);
      PutHeaderReads(c, o, e.(recLen := used));
      RecordLaid(c1, o + used, new', name);
      PutRecordReads(c1, o + used, new', name);
      HeaderLaid(c, o, e.(recLen := used));
      HeaderSame(c1, c', o, e.inode, used, e.nameLen, e.fileType);
    }
    MadeInsideIntro(bs, c, c', inode, fileType, name, o);
  }

  lemma InsideBlock(c: seq<byte>, bs: nat, o: nat)
    requires 0 < bs <= 2048 && o % bs + EntryAt(c, o).recLen <= bs
    ensures EntryAt(c, o).recLen < 0x1_0000
  {
  }

  lemma EntryFitsIs(inode: nat, recLen: nat, nameLen: nat, fileType: nat)
    requires inode < TWO32 && recLen < 0x1_0000 && nameLen < 0x100 && fileType < 0x100
    ensures EntryFits(DirEntry(inode, recLen, nameLen, fileType))
  {
  }

  lemma SplitNullIs(c: seq<byte>, o: nat, inode: nat, fileType: nat, name: Name)
    requires EntryAt(c, o).inode == 0
    ensures SplitInsert(c, o, inode, fileType, name)
      == PutRecord(c, o, DirEntry(inode, SlackLen(EntryAt(c, o)), |name|, fileType), name)
  {
    hide PutRecord, EntryAt;
  }

  lemma SplitLiveIs(c: seq<byte>, o: nat, inode: nat, fileType: nat, name: Name)
    requires EntryAt(c, o).inode != 0
    ensures var e := EntryAt(c, o);
      var c1 := Overlay(c, o, Encode(e.(recLen := UsedLen(e))));
      SplitInsert(c, o, inode, fileType, name)
        == PutRecord(c1, o + UsedLen(e), DirEntry(inode, SlackLen(e), |name|, fileType), name)
  {
    hide PutRecord, EntryAt, Encode, UsedLen, SlackLen;
  }

  lemma MadeInsideIntro(bs: nat, c: seq<byte>, c': seq<byte>, inode: nat, fileType: nat, name: Name, o: nat)
    requires bs > 0 && RecordIn(c, bs, o) && o < |c| && Spare(c, o) >= Taking(|name|)
    requires o + EntryAt(c, o).recLen <= |c'| == |c|
    requires forall r: nat | RecordIn(c, bs, r) && r < o :: Spare(c, r) < Taking(|name|)
    requires RecordAt(c', o + Kept(c, o), inode, Spare(c, o), name, fileType)
    requires EntryAt(c, o).inode != 0 ==>
      HeaderAt(c', o, EntryAt(c, o).inode, Kept(c, o), EntryAt(c, o).nameLen, EntryAt(c, o).fileType)
    requires forall k | 0 <= k < |c| && !(o <= k < o + 8) && !(o + Kept(c, o) <= k < o + EntryAt(c, o).recLen) ::
      c'[k] == c[k]
    ensures MadeAt(bs, c, c', inode, fileType, name, o)
  {
    hide EntryAt, RecordIn, HeaderAt, RecordAt, Kept, Spare;
  }

  lemma NullUsed(e: Entry)
    requires e.inode == 0
    ensures UsedLen(e) == 0
  {
  }

  lemma MadeBehind(c: seq<byte>, bs: nat, inode: nat, fileType: nat, name: Name)
    requires bs == 1024 || bs == 2048
    requires NameOk(name) && 0 < inode < TWO32 && fileType < 0x100
    requires forall r: nat | RecordIn(c, bs, r) && r < |c| :: SlackLen(EntryAt(c, r)) < NeedLen(|name|)
    ensures MadeAt(bs, c, AppendInsert(c, bs, inode, fileType, name), inode, fileType, name, |c|)
  {
    forall r: nat | RecordIn(c, bs, r) && r < |c|
      ensures Spare(c, r) < Taking(|name|)
    {
      RecordBounds(c, bs, r);
      UsedIsKept(c, r);
    }
    hide EntryAt, NameAt, RecOk, Tiled, NeedLen, Encode, NameOk, PutRecord, UsedLen, SlackLen, Kept, Spare, Taking,
      HeaderAt, RecordAt, NeedPositive, RecordIn;
    NeedFitsBlock(name);
    NameFits(name);
    HeaderIs();
    RecordLaid(c, |c|, DirEntry(inode, bs, |name|, fileType), name);
    PutRecordReads(c, |c|, DirEntry(inode, bs, |name|, fileType), name);
  }

  lemma GoneFirst(c: seq<byte>, bs: nat, name: Name)
    requires 0 < bs <= 2048 && RecordIn(c, bs, 0) && EntryAt(c, 0).inode != 0 && NameAt(c, 0) == name
    ensures GoneAt(bs, c, Overlay(c, 0, Zeros(EntryAt(c, 0).recLen)), name, 0, 0)
  {
    hide EntryAt, NameAt, Tiled, RecOk, NeedLen;
    RecordBounds(c, bs, 0);
  }

  lemma GoneNull(c: seq<byte>, bs: nat, o: nat, name: Name)
    requires 0 < bs <= 2048 && RecordIn(c, bs, o) && EntryAt(c, o).inode != 0 && NameAt(c, o) == name
    requires o != 0 && o % bs == 0
    ensures GoneAt(bs, c, NullDelete(c, o), name, 0, o)
  {
    hide EntryAt, NameAt, Tiled, RecOk, NeedLen, PutRecord, RecordAt;
    RecordBounds(c, bs, o);
    HeaderIs();
    var e := DirEntry(0, EntryAt(c, o).recLen, 0, 0);
    RecordLaid(c, o, e, []);
    PutRecordReads(c, o, e, []);
  }

  lemma GoneMerged(c: seq<byte>, bs: nat, p: nat, o: nat, name: Name)
    requires bs == 1024 || bs == 2048
    requires Neighbours(c, bs, p, o) && EntryAt(c, o).inode != 0 && NameAt(c, o) == name && o % bs != 0
    ensures GoneAt(bs, c, MergeDelete(c, p, o), name, p, o)
  {
    hide *;
    NeighbourOks(c, bs, p, o);
    RecordBounds(c, bs, p);
    RecordBounds(c, bs, o);
    HeaderIs();
    CrossesBlock(c, bs, p, o);
    SumFits(c, bs, p, o);
    MergeBytes(c, p, o);
    var b, v := EntryAt(c, p), EntryAt(c, o);
    var e := b.(recLen := b.recLen + v.recLen);
    var c1 := Overlay(c, p, Encode(e));
    EncodeBytes(e);
    HeaderLaid(c, p, e);
    HeaderSame(c1, MergeDelete(c, p, o), p, e.inode, e.recLen, e.nameLen, e.fileType);
    GoneInside(bs, c, MergeDelete(c, p, o), name, p, o);
  }

  lemma SumFits(c: seq<byte>, bs: nat, p: nat, o: nat)
    requires bs <= 2048 && p + 8 <= |c| && o + 8 <= |c| && EntryAt(c, p).recLen + EntryAt(c, o).recLen <= bs
    ensures EntryFits(EntryAt(c, p).(recLen := EntryAt(c, p).recLen + EntryAt(c, o).recLen))
  {
    hide EntryAt;
    HeaderIs();
    EntryAtFits(c, p);
  }

  lemma MergeBytes(c: seq<byte>, p: nat, o: nat)
    requires p + 8 <= o && o + EntryAt(c, o).recLen <= |c|
    ensures var e, r := EntryAt(c, p).(recLen := EntryAt(c, p).recLen + EntryAt(c, o).recLen), MergeDelete(c, p, o);
      var c1 := Overlay(c, p, Encode(e));
      && |c1| == |r| == |c| && ZeroBytes(r, o, o + EntryAt(c, o).recLen)
      && (forall k | p <= k < p + 8 :: r[k] == c1[k])
      && (forall k | 0 <= k < |c| && !(p <= k < p + 8) && !(o <= k < o + EntryAt(c, o).recLen) :: r[k] == c[k])
  {
    hide EntryAt, Encode;
    HeaderIs();
  }

  lemma GoneInside(bs: nat, c: seq<byte>, c': seq<byte>, name: Name, p: nat, o: nat)
    requires bs > 0 && RecordIn(c, bs, o) && EntryAt(c, o).inode != 0 && NameAt(c, o) == name && |c'| == |c|
    requires o % bs != 0 && RecordIn(c, bs, p) && o == p + EntryAt(c, p).recLen
    requires HeaderAt(c', p, EntryAt(c, p).inode, EntryAt(c, p).recLen + EntryAt(c, o).recLen, EntryAt(c, p).nameLen,
                      EntryAt(c, p).fileType)
    requires ZeroBytes(c', o, o + EntryAt(c, o).recLen)
    requires forall k | 0 <= k < |c| && !(p <= k < p + 8) && !(o <= k < o + EntryAt(c, o).recLen) :: c'[k] == c[k]
    ensures GoneAt(bs, c, c', name, p, o)
  {
    hide EntryAt, NameAt, RecordIn, HeaderAt;
    assert 0 % bs == 0;
  }

  // ---- the records before and after ----

  /** A live record with this inode and this type. */
  ghost predicate KindIn(c: seq<byte>, bs: nat, inode: nat, fileType: nat)
    requires bs > 0
  {
    exists o: nat :: RecordIn(c, bs, o) && EntryAt(c, o).inode == inode && EntryAt(c, o).fileType == fileType
  }

  lemma KindHere(c: seq<byte>, bs: nat, o: nat)
    requires bs > 0 && RecordIn(c, bs, o)
    ensures KindIn(c, bs, EntryAt(c, o).inode, EntryAt(c, o).fileType)
  {
    hide RecordIn, EntryAt;
  }

  lemma RecordFront(c: seq<byte>, c': seq<byte>, bs: nat, a: nat, r: nat)
    requires bs > 0 && a <= |c| && a <= |c'| && Tiled(c, bs, 0, |c|) && Tiled(c, bs, 0, a)
    requires forall k | 0 <= k < a :: c'[k] == c[k]
    requires RecordIn(c', bs, r) && r < a
    ensures RecordIn(c, bs, r) && EntryAt(c', r) == EntryAt(c, r)
  {
    hide *;
    RecordParts(c', bs, r);
    TiledSame(c, c', bs, 0, a);
    TiledSplit(c', bs, 0, r, a);
    TiledNext(c', bs, r, a);
    TiledSame(c', c, bs, 0, r);
    RecSame(c', c, bs, r);
    TiledSame(c', c, bs, r + EntryAt(c', r).recLen, a);
    TiledSplit(c, bs, 0, a, |c|);
    TiledJoin(c, bs, r + EntryAt(c', r).recLen, a, |c|);
    RecordFromParts(c, bs, r);
  }

  lemma RecordRest(c: seq<byte>, c': seq<byte>, bs: nat, b: nat, r: nat)
    requires bs > 0 && |c'| == |c| && b <= r && Tiled(c, bs, 0, b) && Tiled(c', bs, b, r)
    requires forall k | b <= k < |c| :: c'[k] == c[k]
    requires RecordIn(c', bs, r)
    ensures RecordIn(c, bs, r) && EntryAt(c', r) == EntryAt(c, r)
  {
    hide *;
    RecordParts(c', bs, r);
    TiledSame(c', c, bs, b, r);
    TiledJoin(c, bs, 0, b, r);
    RecordEnd(c', bs, r);
    RecSame(c', c, bs, r);
    TiledSame(c', c, bs, r + EntryAt(c', r).recLen, |c|);
    RecordFromParts(c, bs, r);
  }

  lemma RecordParts(c: seq<byte>, bs: nat, r: nat)
    requires bs > 0 && RecordIn(c, bs, r)
    ensures r < |c| && Tiled(c, bs, 0, r) && RecOk(c, bs, r) && NeedPositive(c, r)
    ensures Tiled(c, bs, r + EntryAt(c, r).recLen, |c|)
  {
  }

  lemma RecordFromParts(c: seq<byte>, bs: nat, r: nat)
    requires bs > 0 && r < |c| && Tiled(c, bs, 0, r) && RecOk(c, bs, r) && NeedPositive(c, r)
    requires Tiled(c, bs, r + EntryAt(c, r).recLen, |c|)
    ensures RecordIn(c, bs, r)
  {
  }

  /** After an entry every record but the new one names what it named, as the type it had. */
  lemma MadeKinds(bs: nat, c: seq<byte>, c': seq<byte>, inode: nat, fileType: nat, name: Name, r: nat)
    requires 0 < bs <= 2048 && Tiled(c, bs, 0, |c|) && RecordMade(bs, c, c', inode, fileType, name)
    requires RecordIn(c', bs, r) && EntryAt(c', r).inode != 0
    ensures (EntryAt(c', r).inode == inode && EntryAt(c', r).fileType == fileType)
      || KindIn(c, bs, EntryAt(c', r).inode, EntryAt(c', r).fileType)
  {
    hide *;
    var o := PlaceMade(bs, c, c', inode, fileType, name);
    MadeParts(bs, c, c', inode, fileType, name, o);
    RecordParts(c', bs, r);
    if o < |c| {
      RecordParts(c, bs, o);
      RecordBounds(c, bs, o);
    }
    if r < o {
      RecordFront(c, c', bs, o, r);
      KindHere(c, bs, r);
    } else if o == |c| {
      if r > o {
        TiledSame(c, c', bs, 0, o);
        TiledSplit(c', bs, 0, o, r);
        TiledNext(c', bs, o, r);
      }
    } else {
      var n, end := o + Kept(c, o), o + EntryAt(c, o).recLen;
      RecordEnd(c, bs, o);
      KindHere(c, bs, o);
      TiledSame(c, c', bs, 0, o);
      TiledSplit(c', bs, 0, o, r);
      if r > o && n > o { TiledNext(c', bs, o, r); }
      if r > n {
        TiledNext(c', bs, n, r);
        TiledOne(c, bs, o);
        TiledJoin(c, bs, 0, o, end);
        RecordRest(c, c', bs, end, r);
        KindHere(c, bs, r);
      }
    }
  }

  lemma MadeParts(bs: nat, c: seq<byte>, c': seq<byte>, inode: nat, fileType: nat, name: Name, o: nat)
    requires bs > 0 && MadeAt(bs, c, c', inode, fileType, name, o)
    ensures o <= |c| && (forall k | 0 <= k < o :: k < |c'| && c'[k] == c[k])
    ensures o < |c| ==>
      && RecordIn(c, bs, o) && |c'| == |c| && Kept(c, o) <= EntryAt(c, o).recLen
      && EntryAt(c', o + Kept(c, o)) == DirEntry(inode, EntryAt(c, o).recLen - Kept(c, o), |name|, fileType)
      && (EntryAt(c, o).inode == 0 ==> Kept(c, o) == 0)
      && (EntryAt(c, o).inode != 0 ==>
            Kept(c, o) > 0 && EntryAt(c', o) == EntryAt(c, o).(recLen := Kept(c, o)))
      && (forall k | o + EntryAt(c, o).recLen <= k < |c| :: c'[k] == c[k])
    ensures o == |c| ==> |c'| == |c| + bs && EntryAt(c', o) == DirEntry(inode, bs, |name|, fileType)
  {
    hide EntryAt, RecordIn, HeaderAt;
    if o < |c| {
      EntryOfBytes(c', o + Kept(c, o), inode, Spare(c, o), |name|, fileType);
      if EntryAt(c, o).inode != 0 {
        EntryOfBytes(c', o, EntryAt(c, o).inode, Kept(c, o), EntryAt(c, o).nameLen, EntryAt(c, o).fileType);
      }
    } else {
      EntryOfBytes(c', |c|, inode, bs, |name|, fileType);
    }
  }

  /** After an unlink every record names what it named, as the type it had. */
  lemma GoneKinds(bs: nat, c: seq<byte>, c': seq<byte>, name: Name, r: nat)
    requires bs == 1024 || bs == 2048
    requires Tiled(c, bs, 0, |c|) && Tiled(c', bs, 0, |c'|) && |c| > 0 && RecordGone(bs, c, c', name)
    requires RecordIn(c', bs, r) && EntryAt(c', r).inode != 0
    ensures KindIn(c, bs, EntryAt(c', r).inode, EntryAt(c', r).fileType)
  {
    hide *;
    var p, o := PlaceGone(bs, c, c', name);
    GoneParts(bs, c, c', name, p, o);
    RecordParts(c', bs, r);
    RecordParts(c, bs, o);
    RecordBounds(c, bs, o);
    RecordEnd(c, bs, o);
    var a, end := if o % bs == 0 then o else p, o + EntryAt(c, o).recLen;
    RecordParts(c, bs, a);
    KindHere(c, bs, a);
    TiledOne(c, bs, o);
    TiledJoin(c, bs, 0, o, end);
    if r < a {
      RecordFront(c, c', bs, a, r);
      KindHere(c, bs, r);
    } else if r > a {
      TiledSame(c, c', bs, 0, a);
      TiledSplit(c', bs, 0, a, r);
      TiledNext(c', bs, a, r);
      RecordRest(c, c', bs, end, r);
      KindHere(c, bs, r);
    }
  }

  lemma GoneParts(bs: nat, c: seq<byte>, c': seq<byte>, name: Name, p: nat, o: nat)
    requires (bs == 1024 || bs == 2048) && GoneAt(bs, c, c', name, p, o) && Tiled(c', bs, 0, |c'|) && |c| > 0
    ensures RecordIn(c, bs, o) && |c'| == |c| && o != 0
    ensures var a, end := if o % bs == 0 then o else p, o + EntryAt(c, o).recLen;
      && RecordIn(c, bs, a) && a <= o && (forall k | 0 <= k < a :: c'[k] == c[k])
      && (forall k | end <= k < |c| :: c'[k] == c[k])
      && EntryAt(c', a).recLen == end - a
      && (o % bs == 0 ==> EntryAt(c', a).inode == 0)
      && (o % bs != 0 ==>
            EntryAt(c', a).inode == EntryAt(c, a).inode && EntryAt(c', a).fileType == EntryAt(c, a).fileType)
  {
    if o == 0 { ZeroesNotTiled(bs, c, c', name); }
    hide EntryAt, RecordIn, HeaderAt, Tiled;
    if o % bs == 0 {
      EntryOfBytes(c', o, 0, EntryAt(c, o).recLen, 0, 0);
    } else {
      EntryOfBytes(c', p, EntryAt(c, p).inode, EntryAt(c, p).recLen + EntryAt(c, o).recLen, EntryAt(c, p).nameLen,
                   EntryAt(c, p).fileType);
    }
  }

  lemma ZeroesNotTiled(bs: nat, c: seq<byte>, c': seq<byte>, name: Name)
    requires 0 < bs <= 2048 && GoneAt(bs, c, c', name, 0, 0) && |c| > 0
    ensures !Tiled(c', bs, 0, |c'|)
  {
    RecordBounds(c, bs, 0);
    HeaderIs();
    assert c'[4] == 0 && c'[5] == 0;
    assert EntryAt(c', 0).recLen == 0;
  }
}
