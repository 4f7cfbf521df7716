/** A directory's content: variable-length records that tile each block, read as a map from names to inode numbers. */
module DirRecords {
  import opened Arithmetic
  import opened Bytes

  type Name = seq<byte>

  const HEADER: nat := 8

  lemma HeaderIs()
    ensures HEADER == 8
  {
  }

  /** dir_entry_ext2_t: the fixed part of a record. */
  datatype Entry = DirEntry(inode: nat, recLen: nat, nameLen: nat, fileType: nat)

  predicate EntryFits(e: Entry) {
    e.inode < TWO32 && e.recLen < 0x1_0000 && e.nameLen < 0x100 && e.fileType < 0x100
  }

  /** The header as bytes; fields that do not fit their width are never written. */
  function Encode(e: Entry): (r: seq<byte>)
    ensures |r| == HEADER
  {
    if EntryFits(e) then LE32(e.inode) + LE16(e.recLen) + [e.nameLen, e.fileType] else Zeros(HEADER)
  }

  function ByteOf(c: seq<byte>, o: nat): nat {
    if o < |c| then c[o] as nat else 0
  }

  function EntryAt(c: seq<byte>, o: nat): Entry {
    DirEntry(U32(c, o), U16(c, o + 4), ByteOf(c, o + 6), ByteOf(c, o + 7))
  }

  lemma EncodeDecode(e: Entry)
    requires EntryFits(e)
    ensures EntryAt(Encode(e), 0) == e
  {
    FieldsReadBack(e.recLen, e.inode);
  }

  lemma EntrySame(c: seq<byte>, o: nat, c': seq<byte>, o': nat)
    requires o + HEADER <= |c| && o' + HEADER <= |c'|
    requires c[o..o + HEADER] == c'[o'..o' + HEADER]
    ensures EntryAt(c, o) == EntryAt(c', o')
  {
    var h, h' := c[o..o + HEADER], c'[o'..o' + HEADER];
    assert c[o] == h[0] && c[o + 1] == h[1] && c[o + 2] == h[2] && c[o + 3] == h[3];
    assert c[o + 4] == h[4] && c[o + 5] == h[5] && c[o + 6] == h[6] && c[o + 7] == h[7];
    assert c'[o'] == h'[0] && c'[o' + 1] == h'[1] && c'[o' + 2] == h'[2] && c'[o' + 3] == h'[3];
    assert c'[o' + 4] == h'[4] && c'[o' + 5] == h'[5] && c'[o' + 6] == h'[6] && c'[o' + 7] == h'[7];
  }

  /** A header laid over the content reads back as it was written. */
  lemma EntryOverlay(c: seq<byte>, o: nat, e: Entry)
    requires EntryFits(e)
    ensures EntryAt(Overlay(c, o, Encode(e)), o) == e
  {
    EncodeDecode(e);
    assert Overlay(c, o, Encode(e))[o..o + HEADER] == Encode(e)[0..0 + HEADER];
    EntrySame(Overlay(c, o, Encode(e)), o, Encode(e), 0);
  }

  /** align(n, 4) */
  function Align4(n: nat): nat {
    (n + 3) / 4 * 4
  }

  /** The bytes a record with a name of this length needs. */
  function NeedLen(nameLen: nat): nat {
    Align4(HEADER + nameLen)
  }

  /** The last_entry_necess_len of a record: a null record needs nothing. */
  function UsedLen(e: Entry): nat {
    if e.inode == 0 then 0 else NeedLen(e.nameLen)
  }

  function NameAt(c: seq<byte>, o: nat): Name {
    var len := EntryAt(c, o).nameLen;
    if o + HEADER + len <= |c| then c[o + HEADER..o + HEADER + len] else []
  }

  /** A name as the directory code can store and find it. */
  predicate NameOk(n: Name) {
    1 <= |n| <= 254 && 0 !in n
  }

  /** A record at o: its length is a multiple of 4 with room for its name, it ends inside its block, a live record has a
      proper name and a null record none. */
  ghost predicate RecOk(c: seq<byte>, bs: nat, o: nat)
    requires bs > 0
  {
    var e := EntryAt(c, o);
    && e.recLen % 4 == 0 && NeedLen(e.nameLen) <= e.recLen
    && o % bs + e.recLen <= bs
    && o + e.recLen <= |c|
    && (e.inode == 0 ==> e.nameLen == 0)
    && (e.inode != 0 ==> NameOk(NameAt(c, o)))
  }

  /** Records fill bytes [a, b) exactly. */
  ghost predicate Tiled(c: seq<byte>, bs: nat, a: nat, b: nat)
    requires bs > 0
    decreases b - a
  {
    a == b || (a < b <= |c| && RecOk(c, bs, a) && NeedPositive(c, a) && Tiled(c, bs, a + EntryAt(c, a).recLen, b))
  }

  /** Every record moves the walk forward. */
  ghost predicate NeedPositive(c: seq<byte>, o: nat) {
    HEADER <= EntryAt(c, o).recLen
  }

  ghost function NamesAt(c: seq<byte>, o: nat): map<Name, nat> {
    if EntryAt(c, o).inode == 0 then map[] else map[NameAt(c, o) := EntryAt(c, o).inode]
  }

  /** The names of the live records in [a, b) and the inodes they lead to. */
  ghost function NameMap(c: seq<byte>, bs: nat, a: nat, b: nat): map<Name, nat>
    requires bs > 0 && Tiled(c, bs, a, b)
    decreases b - a
  {
    if a == b then map[] else NameMap(c, bs, a + EntryAt(c, a).recLen, b) + NamesAt(c, a)
  }

  /** No name occurs twice in [a, b). */
  ghost predicate Distinct(c: seq<byte>, bs: nat, a: nat, b: nat)
    requires bs > 0 && Tiled(c, bs, a, b)
    decreases b - a
  {
    a == b || (
      && NamesAt(c, a).Keys !! NameMap(c, bs, a + EntryAt(c, a).recLen, b).Keys
      && Distinct(c, bs, a + EntryAt(c, a).recLen, b))
  }

  /** A directory: whole blocks of records with different names. */
  ghost predicate DirOk(c: seq<byte>, bs: nat)
    requires bs > 0
  {
    |c| % bs == 0 && Tiled(c, bs, 0, |c|) && Distinct(c, bs, 0, |c|)
  }

  ghost function DirMap(c: seq<byte>, bs: nat): map<Name, nat>
    requires bs > 0 && DirOk(c, bs)
  {
    NameMap(c, bs, 0, |c|)
  }

  lemma {:induction false} TiledJoin(c: seq<byte>, bs: nat, a: nat, m: nat, b: nat)
    requires bs > 0 && a <= m <= b && Tiled(c, bs, a, m) && Tiled(c, bs, m, b)
    ensures Tiled(c, bs, a, b)
    ensures NameMap(c, bs, a, b) == NameMap(c, bs, m, b) + NameMap(c, bs, a, m)
    ensures Distinct(c, bs, a, b) <==>
      Distinct(c, bs, a, m) && Distinct(c, bs, m, b) && NameMap(c, bs, a, m).Keys !! NameMap(c, bs, m, b).Keys
    decreases m - a
  {
    hide *;
    TiledNothing(c, bs, a);
    TiledOrder(c, bs, m, b);
    if a < m {
      var x := a + EntryAt(c, a).recLen;
      TiledNext(c, bs, a, m);
      TiledJoin(c, bs, x, m, b);
      TiledBack(c, bs, a, b);
      TiledBack(c, bs, a, m);
      MapJoin(NamesAt(c, a), NameMap(c, bs, x, m), NameMap(c, bs, m, b));
    } else {
      assert NameMap(c, bs, m, b) + map[] == NameMap(c, bs, m, b);
    }
  }

  lemma TiledNothing(c: seq<byte>, bs: nat, a: nat)
    requires bs > 0
    ensures Tiled(c, bs, a, a) && NameMap(c, bs, a, a) == map[] && Distinct(c, bs, a, a)
  {
  }

  lemma MapJoin(first: map<Name, nat>, rest: map<Name, nat>, tail: map<Name, nat>)
    ensures (tail + rest) + first == tail + (rest + first)
    ensures first.Keys !! (tail + rest).Keys && rest.Keys !! tail.Keys
      <==> (rest + first).Keys !! tail.Keys && first.Keys !! rest.Keys && rest.Keys !! tail.Keys
  {
  }

  lemma TiledNext(c: seq<byte>, bs: nat, a: nat, b: nat)
    requires bs > 0 && a < b && Tiled(c, bs, a, b)
    ensures a < a + EntryAt(c, a).recLen <= b <= |c| && RecOk(c, bs, a) && NeedPositive(c, a)
    ensures Tiled(c, bs, a + EntryAt(c, a).recLen, b)
  {
    TiledOrder(c, bs, a + EntryAt(c, a).recLen, b);
  }

  lemma TiledBack(c: seq<byte>, bs: nat, a: nat, b: nat)
    requires bs > 0 && a < b <= |c| && RecOk(c, bs, a) && NeedPositive(c, a)
    requires Tiled(c, bs, a + EntryAt(c, a).recLen, b)
    ensures Tiled(c, bs, a, b)
    ensures NameMap(c, bs, a, b) == NameMap(c, bs, a + EntryAt(c, a).recLen, b) + NamesAt(c, a)
    ensures Distinct(c, bs, a, b) <==>
      NamesAt(c, a).Keys !! NameMap(c, bs, a + EntryAt(c, a).recLen, b).Keys
        && Distinct(c, bs, a + EntryAt(c, a).recLen, b)
  {
  }

  lemma {:induction false} TiledOrder(c: seq<byte>, bs: nat, a: nat, b: nat)
    requires bs > 0 && Tiled(c, bs, a, b)
    ensures a <= b && (a < b ==> a + EntryAt(c, a).recLen <= b && b <= |c|)
    decreases b - a
  {
    if a < b { TiledOrder(c, bs, a + EntryAt(c, a).recLen, b); }
  }

  /** Bytes that stay the same keep their records. */
  lemma {:induction false} TiledSame(c: seq<byte>, c': seq<byte>, bs: nat, a: nat, b: nat)
    requires bs > 0 && Tiled(c, bs, a, b) && b <= |c| && b <= |c'|
    requires forall k | a <= k < b :: c'[k] == c[k]
    ensures Tiled(c', bs, a, b)
    ensures NameMap(c', bs, a, b) == NameMap(c, bs, a, b)
    ensures Distinct(c', bs, a, b) <==> Distinct(c, bs, a, b)
    decreases b - a
  {
    hide *;
    TiledNothing(c, bs, a);
    TiledNothing(c', bs, a);
    TiledOrder(c, bs, a, b);
    if a < b {
      TiledNext(c, bs, a, b);
      RecSame(c, c', bs, a);
      TiledSame(c, c', bs, a + EntryAt(c, a).recLen, b);
      TiledBack(c, bs, a, b);
      TiledBack(c', bs, a, b);
    }
  }

  lemma RecSame(c: seq<byte>, c': seq<byte>, bs: nat, o: nat)
    requires bs > 0 && RecOk(c, bs, o) && NeedPositive(c, o) && o + EntryAt(c, o).recLen <= |c'|
    requires forall k | o <= k < o + EntryAt(c, o).recLen :: c'[k] == c[k]
    ensures EntryAt(c', o) == EntryAt(c, o) && NameAt(c', o) == NameAt(c, o)
    ensures RecOk(c', bs, o) && NeedPositive(c', o) && NamesAt(c', o) == NamesAt(c, o)
  {
    assert c'[o..o + HEADER] == c[o..o + HEADER];
    EntrySame(c', o, c, o);
    assert NameAt(c', o) == NameAt(c, o);
  }

  lemma {:induction false} TiledSplit(c: seq<byte>, bs: nat, a: nat, m: nat, b: nat)
    requires bs > 0 && a <= m <= b && Tiled(c, bs, a, m) && Tiled(c, bs, a, b)
    ensures Tiled(c, bs, m, b)
    decreases m - a
  {
    if a < m {
      TiledNext(c, bs, a, m);
      TiledSplit(c, bs, a + EntryAt(c, a).recLen, m, b);
    }
  }

  lemma TiledOne(c: seq<byte>, bs: nat, o: nat)
    requires bs > 0 && RecOk(c, bs, o) && NeedPositive(c, o)
    ensures Tiled(c, bs, o, o + EntryAt(c, o).recLen)
    ensures NameMap(c, bs, o, o + EntryAt(c, o).recLen) == NamesAt(c, o)
    ensures Distinct(c, bs, o, o + EntryAt(c, o).recLen)
  {
    var e := o + EntryAt(c, o).recLen;
    assert Tiled(c, bs, e, e);
    assert NameMap(c, bs, e, e) == map[];
  }

  /** Replacing the records of [a, b) by others of the same total length replaces their names, and keeps all others. */
  lemma ReplaceSegment(c: seq<byte>, c': seq<byte>, bs: nat, a: nat, b: nat)
    requires bs > 0 && DirOk(c, bs) && a <= b <= |c| && |c'| == |c|
    requires Tiled(c, bs, 0, a) && Tiled(c, bs, a, b) && Tiled(c, bs, b, |c|)
    requires forall k | 0 <= k < |c| && !(a <= k < b) :: c'[k] == c[k]
    requires Tiled(c', bs, a, b) && Distinct(c', bs, a, b)
    requires forall n | n in NameMap(c', bs, a, b) :: n in NameMap(c, bs, a, b) || n !in DirMap(c, bs)
    ensures DirOk(c', bs)
    ensures DirMap(c', bs) == (DirMap(c, bs) - NameMap(c, bs, a, b).Keys) + NameMap(c', bs, a, b)
  {
    hide Tiled, NameMap, Distinct;
    TiledOrder(c, bs, 0, a);
    TiledSame(c, c', bs, 0, a);
    TiledSame(c, c', bs, b, |c|);
    TiledJoin(c, bs, 0, a, b);
    TiledJoin(c, bs, 0, b, |c|);
    TiledJoin(c', bs, 0, a, b);
    TiledJoin(c', bs, 0, b, |c|);
    MapReplace(NameMap(c, bs, 0, a), NameMap(c, bs, a, b), NameMap(c', bs, a, b), NameMap(c, bs, b, |c|));
  }

  lemma MapReplace(before: map<Name, nat>, old': map<Name, nat>, new': map<Name, nat>, after: map<Name, nat>)
    requires before.Keys !! old'.Keys && (old' + before).Keys !! after.Keys
    requires forall n | n in new' :: n in old' || n !in after + (old' + before)
    ensures after + (new' + before) == ((after + (old' + before)) - old'.Keys) + new'
    ensures before.Keys !! new'.Keys && (new' + before).Keys !! after.Keys
  {
    var all := after + (old' + before);
    forall n | n in new'
      ensures n !in before && n !in after
    {
    }
    var r, s := after + (new' + before), (all - old'.Keys) + new';
    assert r.Keys == s.Keys;
    forall n | n in r ensures r[n] == s[n] { }
  }

  // ---- what the directory operations write ----

  lemma FourDigits(a: byte, b: byte, c: byte, d: byte)
    ensures var w := a as nat + 0x100 * b as nat + 0x1_0000 * c as nat + 0x100_0000 * d as nat;
      w < TWO32 && w % 0x100 == a && w / 0x100 % 0x100 == b && w / 0x1_0000 % 0x100 == c && w / 0x100_0000 == d
  {
    var w1 := b as nat + 0x100 * c as nat + 0x1_0000 * d as nat;
    var w2 := c as nat + 0x100 * d as nat;
    var w := a as nat + 0x100 * w1;
    DivUnique(w, 0x100, w1, a as nat);
    DivUnique(w1, 0x100, w2, b as nat);
    DivUnique(w2, 0x100, d as nat, c as nat);
    DivUnique(w, 0x1_0000, w2, a as nat + 0x100 * b as nat);
    DivUnique(w, 0x100_0000, d as nat, a as nat + 0x100 * b as nat + 0x1_0000 * c as nat);
  }

  lemma LE32Back(b: seq<byte>, o: nat)
    requires o + 4 <= |b|
    ensures U32(b, o) < TWO32 && LE32(U32(b, o)) == b[o..o + 4]
  {
    FourDigits(b[o], b[o + 1], b[o + 2], b[o + 3]);
    assert b[o..o + 4] == [b[o], b[o + 1], b[o + 2], b[o + 3]];
  }

  lemma EntryAtFits(c: seq<byte>, o: nat)
    requires o + HEADER <= |c|
    ensures EntryFits(EntryAt(c, o)) && Encode(EntryAt(c, o)) == c[o..o + HEADER]
  {
    LE32Back(c, o);
    var e := EntryAt(c, o);
    assert LE16(e.recLen) == c[o + 4..o + 6];
    assert [e.nameLen as byte, e.fileType as byte] == c[o + 6..o + 8];
    assert c[o..o + 8] == c[o..o + 4] + c[o + 4..o + 6] + c[o + 6..o + 8];
  }

  /** Writing a header back unchanged changes nothing. */
  lemma HeaderRewrite(c: seq<byte>, o: nat)
    requires o + HEADER <= |c|
    ensures EntryFits(EntryAt(c, o)) && Overlay(c, o, Encode(EntryAt(c, o))) == c
  {
    EntryAtFits(c, o);
    assert forall k | o <= k < o + HEADER :: c[k] == c[o..o + HEADER][k - o];
  }

  /** writedir_ext2: a whole record, header and zero-padded name. */
  function PutRecord(c: seq<byte>, o: nat, e: Entry, name: Name): (r: seq<byte>)
  {
    var pad := if HEADER + |name| <= e.recLen then e.recLen - HEADER - |name| else 0;
    Overlay(Overlay(c, o, Encode(e)), o + HEADER, name + Zeros(pad))
  }

  lemma PutRecordReads(c: seq<byte>, o: nat, e: Entry, name: Name)
    requires EntryFits(e) && HEADER + |name| <= e.recLen && e.nameLen == |name|
    ensures var r := PutRecord(c, o, e, name);
      && |r| == (if o + e.recLen > |c| then o + e.recLen else |c|)
      && EntryAt(r, o) == e && NameAt(r, o) == name
      && (forall k | 0 <= k < |c| && !(o <= k < o + e.recLen) :: r[k] == c[k])
  {
    hide Encode, EntryAt, NameAt;
    var r1 := Overlay(c, o, Encode(e));
    var body := name + Zeros(e.recLen - HEADER - |name|);
    var r := Overlay(r1, o + HEADER, body);
    EntryOverlay(c, o, e);
    assert r[o..o + HEADER] == r1[o..o + HEADER];
    EntrySame(r, o, r1, o);
    NameIs(r, o, name, body);
  }

  lemma NameIs(r: seq<byte>, o: nat, name: Name, body: seq<byte>)
    requires o + HEADER + |body| <= |r| && |name| <= |body| && EntryAt(r, o).nameLen == |name|
    requires forall k | 0 <= k < |body| :: r[o + HEADER + k] == body[k]
    requires forall k | 0 <= k < |name| :: body[k] == name[k]
    ensures NameAt(r, o) == name
  {
    hide EntryAt;
    assert r[o + HEADER..o + HEADER + |name|] == name by {
      forall k | 0 <= k < |name| ensures r[o + HEADER..o + HEADER + |name|][k] == name[k] {
        assert r[o + HEADER + k] == body[k];
      }
    }
  }

  /** A header written over another changes nothing behind it. */
  lemma PutHeaderReads(c: seq<byte>, o: nat, e: Entry)
    requires EntryFits(e) && o + HEADER <= |c|
    ensures var r := Overlay(c, o, Encode(e));
      && |r| == |c| && EntryAt(r, o) == e
      && (forall k | 0 <= k < |c| && !(o <= k < o + HEADER) :: r[k] == c[k])
  {
    EntryOverlay(c, o, e);
  }

  lemma NameSame(c: seq<byte>, c': seq<byte>, o: nat)
    requires EntryAt(c', o).nameLen == EntryAt(c, o).nameLen
    requires o + HEADER + EntryAt(c, o).nameLen <= |c| && o + HEADER + EntryAt(c, o).nameLen <= |c'|
    requires forall k | o + HEADER <= k < o + HEADER + EntryAt(c, o).nameLen :: c'[k] == c[k]
    ensures NameAt(c', o) == NameAt(c, o)
  {
  }

  lemma ModInBlock(bs: nat, o: nat, d: nat)
    requires bs == 1024 || bs == 2048
    ensures o % bs + d < bs ==> (o + d) % bs == o % bs + d
    ensures o % bs + d == bs ==> (o + d) % bs == 0
  {
  }

  lemma NeedLenFacts(n: nat)
    ensures NeedLen(n) % 4 == 0 && HEADER + n <= NeedLen(n) < HEADER + n + 4
  {
  }

  /** A record at o in a tiled directory. */
  ghost predicate RecordIn(c: seq<byte>, bs: nat, o: nat)
    requires bs > 0
  {
    && o < |c| && Tiled(c, bs, 0, o) && RecOk(c, bs, o) && NeedPositive(c, o)
    && Tiled(c, bs, o + EntryAt(c, o).recLen, |c|)
  }

  /** What is left of a record's length when its own name has been served. */
  function SlackLen(e: Entry): nat {
    if UsedLen(e) <= e.recLen then e.recLen - UsedLen(e) else 0
  }

  /** create_dir_entry_ext2 where record o has room: a live record keeps what it needs, a null record gives all. */
  function SplitInsert(c: seq<byte>, o: nat, ino: nat, fileType: nat, name: Name): seq<byte> {
    var e := EntryAt(c, o);
    var c1 := if e.inode == 0 then c else Overlay(c, o, Encode(e.(recLen := UsedLen(e))));
    PutRecord(c1, o + UsedLen(e), DirEntry(ino, SlackLen(e), |name|, fileType), name)
  }

  lemma RecordBounds(c: seq<byte>, bs: nat, o: nat)
    requires 0 < bs <= 2048 && RecordIn(c, bs, o)
    ensures var e := EntryAt(c, o);
      && o + HEADER <= o + e.recLen <= |c| && HEADER + e.nameLen <= NeedLen(e.nameLen) <= e.recLen <= bs
      && e.recLen == UsedLen(e) + SlackLen(e) && EntryFits(e) && EntryFits(e.(recLen := UsedLen(e)))
      && e.recLen % 4 == 0 && UsedLen(e) % 4 == 0 && o % bs + e.recLen <= bs
      && (e.inode == 0 ==> e.nameLen == 0) && (e.inode != 0 ==> NameOk(NameAt(c, o)))
  {
    hide Tiled, NameAt, Encode;
    NeedLenFacts(EntryAt(c, o).nameLen);
    EntryAtFits(c, o);
  }

  lemma RecIntro(c: seq<byte>, bs: nat, o: nat, e: Entry, name: Name)
    requires bs > 0 && e == EntryAt(c, o) && name == NameAt(c, o)
    requires e.recLen % 4 == 0 && NeedLen(e.nameLen) <= e.recLen && o % bs + e.recLen <= bs && o + e.recLen <= |c|
    requires e.inode == 0 ==> e.nameLen == 0
    requires e.inode != 0 ==> NameOk(name)
    ensures RecOk(c, bs, o) && NeedPositive(c, o)
    ensures Tiled(c, bs, o, o + e.recLen) && Distinct(c, bs, o, o + e.recLen)
    ensures NameMap(c, bs, o, o + e.recLen) == if e.inode == 0 then map[] else map[name := e.inode]
  {
    hide EntryAt, NameAt;
    NeedLenFacts(e.nameLen);
    TiledOne(c, bs, o);
  }

  lemma NamesInDir(c: seq<byte>, bs: nat, o: nat)
    requires bs > 0 && DirOk(c, bs) && RecordIn(c, bs, o)
    ensures forall n | n in NamesAt(c, o) :: n in DirMap(c, bs) && DirMap(c, bs)[n] == NamesAt(c, o)[n]
    ensures Tiled(c, bs, o, o + EntryAt(c, o).recLen)
    ensures NameMap(c, bs, o, o + EntryAt(c, o).recLen) == NamesAt(c, o)
  {
    hide RecOk, NamesAt;
    var end := o + EntryAt(c, o).recLen;
    TiledOne(c, bs, o);
    hide Tiled, NameMap, Distinct;
    TiledJoin(c, bs, o, end, |c|);
    TiledJoin(c, bs, 0, o, |c|);
  }

  lemma RecordEnd(c: seq<byte>, bs: nat, o: nat)
    requires bs > 0 && RecordIn(c, bs, o)
    ensures o + EntryAt(c, o).recLen <= |c| && Tiled(c, bs, 0, o) && Tiled(c, bs, o + EntryAt(c, o).recLen, |c|)
  {
  }

  /** Bytes [a, b) are records with different names, which lead where `names` says. */
  ghost predicate Holds(c: seq<byte>, bs: nat, a: nat, b: nat, names: map<Name, nat>)
    requires bs > 0
  {
    Tiled(c, bs, a, b) && Distinct(c, bs, a, b) && NameMap(c, bs, a, b) == names
  }

  ghost predicate SameOutside(c: seq<byte>, c': seq<byte>, a: nat, b: nat) {
    |c'| == |c| && forall k | 0 <= k < |c| && !(a <= k < b) :: c'[k] == c[k]
  }

  /** A directory with record o replaced by records of the same total length that hold the names `names`. */
  lemma ReplaceRecord(c: seq<byte>, c': seq<byte>, bs: nat, o: nat, names: map<Name, nat>)
    requires bs > 0 && DirOk(c, bs) && RecordIn(c, bs, o)
    requires SameOutside(c, c', o, o + EntryAt(c, o).recLen) && Holds(c', bs, o, o + EntryAt(c, o).recLen, names)
    requires forall n | n in names :: n in NamesAt(c, o) || n !in DirMap(c, bs)
    ensures DirOk(c', bs) && DirMap(c', bs) == (DirMap(c, bs) - NamesAt(c, o).Keys) + names
  {
    hide *;
    var end := o + EntryAt(c, o).recLen;
    NamesInDir(c, bs, o);
    RecordEnd(c, bs, o);
    HoldsIs(c, c', bs, o, end, names);
    ReplaceSegment(c, c', bs, o, end);
  }

  lemma HoldsIs(c: seq<byte>, c': seq<byte>, bs: nat, a: nat, b: nat, names: map<Name, nat>)
    requires bs > 0 && SameOutside(c, c', a, b) && Holds(c', bs, a, b, names)
    ensures |c'| == |c| && forall k | 0 <= k < |c| && !(a <= k < b) :: c'[k] == c[k]
    ensures Tiled(c', bs, a, b) && Distinct(c', bs, a, b) && NameMap(c', bs, a, b) == names
  {
  }

  /** Inserting into the room that record o leaves: the new name is found, all others are as before. */
  lemma InsertSplit(c: seq<byte>, bs: nat, o: nat, ino: nat, fileType: nat, name: Name)
    requires bs == 1024 || bs == 2048
    requires DirOk(c, bs) && RecordIn(c, bs, o) && NameOk(name) && name !in DirMap(c, bs)
    requires 0 < ino < TWO32 && fileType < 0x100
    requires SlackLen(EntryAt(c, o)) >= NeedLen(|name|)
    ensures DirOk(SplitInsert(c, o, ino, fileType, name), bs)
    ensures DirMap(SplitInsert(c, o, ino, fileType, name), bs) == DirMap(c, bs)[name := ino]
  {
    hide *;
    assert name !in NamesAt(c, o) by { NamesInDir(c, bs, o); }
    SplitSegment(c, bs, o, ino, fileType, name);
    RecordBounds(c, bs, o);
    ReplaceRecord(c, SplitInsert(c, o, ino, fileType, name), bs, o, NamesAt(c, o)[name := ino]);
    MapInsert(DirMap(c, bs), NamesAt(c, o), name, ino) by { NamesInDir(c, bs, o); }
  }

  lemma MapInsert(m: map<Name, nat>, part: map<Name, nat>, name: Name, ino: nat)
    requires forall n | n in part :: n in m && m[n] == part[n]
    ensures (m - part.Keys) + part[name := ino] == m[name := ino]
  {
  }

  /** The one or two records that take the place of record o. */
  lemma SplitSegment(c: seq<byte>, bs: nat, o: nat, ino: nat, fileType: nat, name: Name)
    requires bs == 1024 || bs == 2048
    requires RecordIn(c, bs, o) && NameOk(name) && name !in NamesAt(c, o)
    requires 0 < ino < TWO32 && fileType < 0x100
    requires SlackLen(EntryAt(c, o)) >= NeedLen(|name|)
    ensures SameOutside(c, SplitInsert(c, o, ino, fileType, name), o, o + EntryAt(c, o).recLen)
    ensures Holds(SplitInsert(c, o, ino, fileType, name), bs, o, o + EntryAt(c, o).recLen, NamesAt(c, o)[name := ino])
  {
    hide *;
    if EntryAt(c, o).inode == 0 {
      SplitNull(c, bs, o, ino, fileType, name);
    } else {
      SplitLive(c, bs, o, ino, fileType, name);
      TwoNamesHold(SplitInsert(c, o, ino, fileType, name), bs, o, o + EntryAt(c, o).recLen, NamesAt(c, o), name, ino);
    }
  }

  lemma TwoNamesHold(c: seq<byte>, bs: nat, a: nat, b: nat, first: map<Name, nat>, name: Name, ino: nat)
    requires bs > 0 && TwoNames(c, bs, a, b, first, map[name := ino]) && name !in first
    ensures Holds(c, bs, a, b, first[name := ino])
  {
    hide Tiled, NameMap, Distinct;
    assert map[name := ino] + first == first[name := ino];
  }

  lemma SplitNull(c: seq<byte>, bs: nat, o: nat, ino: nat, fileType: nat, name: Name)
    requires bs == 1024 || bs == 2048
    requires RecordIn(c, bs, o) && NameOk(name) && 0 < ino < TWO32 && fileType < 0x100
    requires SlackLen(EntryAt(c, o)) >= NeedLen(|name|) && EntryAt(c, o).inode == 0
    ensures SameOutside(c, SplitInsert(c, o, ino, fileType, name), o, o + EntryAt(c, o).recLen)
    ensures Holds(SplitInsert(c, o, ino, fileType, name), bs, o, o + EntryAt(c, o).recLen, NamesAt(c, o)[name := ino])
  {
    hide EntryAt, NameAt, RecOk, Tiled, Distinct, NameMap, NeedLen, Encode, NameOk, PutRecord, RecordIn;
    RecordBounds(c, bs, o);
    NeedLenFacts(|name|);
    NameFits(name);
    var e := DirEntry(ino, EntryAt(c, o).recLen, |name|, fileType);
    PutRecordReads(c, o, e, name);
    RecIntro(PutRecord(c, o, e, name), bs, o, e, name);
    assert NamesAt(c, o) == map[];
  }

  lemma SplitLive(c: seq<byte>, bs: nat, o: nat, ino: nat, fileType: nat, name: Name)
    requires bs == 1024 || bs == 2048
    requires RecordIn(c, bs, o) && NameOk(name) && 0 < ino < TWO32 && fileType < 0x100
    requires SlackLen(EntryAt(c, o)) >= NeedLen(|name|) && EntryAt(c, o).inode != 0
    ensures SameOutside(c, SplitInsert(c, o, ino, fileType, name), o, o + EntryAt(c, o).recLen)
    ensures TwoNames(SplitInsert(c, o, ino, fileType, name), bs, o, o + EntryAt(c, o).recLen, NamesAt(c, o),
                     map[name := ino])
  {
    hide EntryAt, NameAt, RecOk, Tiled, Distinct, NameMap, NeedLen, Encode, NameOk, PutRecord, RecordIn, UsedLen,
      SlackLen;
    RecordBounds(c, bs, o);
    NeedLenFacts(|name|);
    NameFits(name);
    var used := UsedLen(EntryAt(c, o));
    var e := DirEntry(ino, SlackLen(EntryAt(c, o)), |name|, fileType);
    var c1 := Overlay(c, o, Encode(EntryAt(c, o).(recLen := used)));
    assert HEADER <= used by { LiveNeeds(EntryAt(c, o)); }
    PutRecordReads(c1, o + used, e, name);
    ModInBlock(bs, o, used);
    RecIntro(PutRecord(c1, o + used, e, name), bs, o + used, e, name);
    PutHeaderReads(c, o, EntryAt(c, o).(recLen := used));
    hide Overlay;
    ShortenedRecord(c, c1, PutRecord(c1, o + used, e, name), bs, o, o + EntryAt(c, o).recLen, map[name := ino]);
    assert NamesAt(c, o) == map[NameAt(c, o) := EntryAt(c, o).inode];
  }

  lemma LiveNeeds(e: Entry)
    requires e.inode != 0
    ensures HEADER <= UsedLen(e)
  {
    NeedLenFacts(e.nameLen);
  }

  /** Bytes [a, b) are records that hold the names of `first` and then those of `rest`. */
  ghost predicate TwoNames(c: seq<byte>, bs: nat, a: nat, b: nat, first: map<Name, nat>, rest: map<Name, nat>)
    requires bs > 0
  {
    Tiled(c, bs, a, b) && NameMap(c, bs, a, b) == rest + first && (Distinct(c, bs, a, b) <==> first.Keys !! rest.Keys)
  }

  /** A live record cut down to what it needs, with new records behind it. */
  lemma ShortenedRecord(c: seq<byte>, c1: seq<byte>, c': seq<byte>, bs: nat, o: nat, end: nat, rest: map<Name, nat>)
    requires 0 < bs <= 2048 && SameOutside(c, c1, o, o + HEADER) && SameOutside(c1, c', o + UsedLen(EntryAt(c, o)), end)
    requires Holds(c', bs, o + UsedLen(EntryAt(c, o)), end, rest)
    requires RecordIn(c, bs, o) && EntryAt(c, o).inode != 0 && end == o + EntryAt(c, o).recLen
    requires EntryAt(c1, o) == EntryAt(c, o).(recLen := UsedLen(EntryAt(c, o)))
    ensures TwoNames(c', bs, o, end, map[NameAt(c, o) := EntryAt(c, o).inode], rest)
  {
    hide EntryAt, NameAt, RecOk, Tiled, Distinct, NameMap, NeedLen, NameOk, RecordIn;
    RecordBounds(c, bs, o);
    NeedLenFacts(EntryAt(c, o).nameLen);
    HeadSame(c', c1, o);
    NameSame(c, c', o);
    RecIntro(c', bs, o, EntryAt(c, o).(recLen := UsedLen(EntryAt(c, o))), NameAt(c, o));
    TiledJoin(c', bs, o, o + UsedLen(EntryAt(c, o)), end);
  }

  lemma NameFits(name: Name)
    requires NameOk(name)
    ensures 1 <= |name| <= 254
  {
  }

  lemma HeadSame(c': seq<byte>, c: seq<byte>, o: nat)
    requires o + HEADER <= |c| && o + HEADER <= |c'| && forall k | o <= k < o + HEADER :: c'[k] == c[k]
    ensures EntryAt(c', o) == EntryAt(c, o)
  {
    assert c'[o..o + HEADER] == c[o..o + HEADER];
    EntrySame(c', o, c, o);
  }

  /** create_dir_entry_ext2 where no record has room: a record that fills a block of its own. */
  function AppendInsert(c: seq<byte>, bs: nat, ino: nat, fileType: nat, name: Name): seq<byte> {
    PutRecord(c, |c|, DirEntry(ino, bs, |name|, fileType), name)
  }

  lemma NeedFitsBlock(name: Name)
    requires NameOk(name)
    ensures NeedLen(|name|) <= 264 && HEADER + |name| < NeedLen(|name|) + 1
  {
    NeedLenFacts(|name|);
  }

  /** Inserting behind the last record: the new name is found, all others are as before. */
  lemma InsertAppend(c: seq<byte>, bs: nat, ino: nat, fileType: nat, name: Name)
    requires bs == 1024 || bs == 2048
    requires DirOk(c, bs) && NameOk(name) && name !in DirMap(c, bs)
    requires 0 < ino < TWO32 && fileType < 0x100
    ensures |AppendInsert(c, bs, ino, fileType, name)| == |c| + bs
    ensures DirOk(AppendInsert(c, bs, ino, fileType, name), bs)
    ensures DirMap(AppendInsert(c, bs, ino, fileType, name), bs) == DirMap(c, bs)[name := ino]
  {
    hide EntryAt, NameAt, RecOk, Encode, NameOk, PutRecord, NeedLen, Tiled, NameMap, Distinct;
    var e := DirEntry(ino, bs, |name|, fileType);
    var c' := PutRecord(c, |c|, e, name);
    NameFits(name);
    NeedFitsBlock(name);
    PutRecordReads(c, |c|, e, name);
    RecIntro(c', bs, |c|, e, name);
    TiledSame(c, c', bs, 0, |c|);
    TiledJoin(c', bs, 0, |c|, |c'|);
    assert (|c| + bs) % bs == 0;
  }

  // ---- a name that is there already ----

  /** Records put in the place of record o break the directory when they hold one name twice, or one that another
      record has. */
  lemma BrokenSegment(c: seq<byte>, c': seq<byte>, bs: nat, o: nat, name: Name)
    requires bs > 0 && DirOk(c, bs) && RecordIn(c, bs, o) && name in DirMap(c, bs)
    requires SameOutside(c, c', o, o + EntryAt(c, o).recLen) && o + EntryAt(c, o).recLen <= |c|
    requires Tiled(c', bs, o, o + EntryAt(c, o).recLen)
    requires if name in NamesAt(c, o) then !Distinct(c', bs, o, o + EntryAt(c, o).recLen)
      else name in NameMap(c', bs, o, o + EntryAt(c, o).recLen)
    ensures |c'| == |c| && Tiled(c', bs, 0, |c'|) && !DirOk(c', bs)
  {
    hide *;
    var end := o + EntryAt(c, o).recLen;
    NamesInDir(c, bs, o);
    RecordEnd(c, bs, o);
    DirOkParts(c, bs);
    SameOutsideIs(c, c', o, end);
    TiledSame(c, c', bs, 0, o);
    TiledSame(c, c', bs, end, |c|);
    TiledJoin(c, bs, 0, o, end);
    TiledJoin(c, bs, 0, end, |c|);
    TiledJoin(c', bs, 0, o, end);
    TiledJoin(c', bs, 0, end, |c|);
    if DirOk(c', bs) {
      DirOkParts(c', bs);
      NotApart(NameMap(c, bs, 0, o), NameMap(c', bs, o, end), NameMap(c, bs, end, |c|), name);
    }
  }

  lemma DirOkParts(c: seq<byte>, bs: nat)
    requires bs > 0 && DirOk(c, bs)
    ensures Tiled(c, bs, 0, |c|) && Distinct(c, bs, 0, |c|) && DirMap(c, bs) == NameMap(c, bs, 0, |c|)
  {
  }

  lemma SameOutsideIs(c: seq<byte>, c': seq<byte>, a: nat, b: nat)
    requires SameOutside(c, c', a, b)
    ensures |c'| == |c| && forall k | 0 <= k < |c| && !(a <= k < b) :: c'[k] == c[k]
  {
  }

  lemma NotApart(before: map<Name, nat>, new': map<Name, nat>, after: map<Name, nat>, name: Name)
    requires name in new' && before.Keys !! new'.Keys && (new' + before).Keys !! after.Keys
    ensures name !in before && name !in after
  {
    assert name in new'.Keys;
    assert name in (new' + before).Keys;
  }

  lemma SplitTwice(c: seq<byte>, bs: nat, o: nat, ino: nat, fileType: nat, name: Name)
    requires bs == 1024 || bs == 2048
    requires DirOk(c, bs) && RecordIn(c, bs, o) && NameOk(name) && name in DirMap(c, bs)
    requires 0 < ino < TWO32 && fileType < 0x100
    requires SlackLen(EntryAt(c, o)) >= NeedLen(|name|)
    ensures !DirOk(SplitInsert(c, o, ino, fileType, name), bs)
  {
    hide *;
    RecordEnd(c, bs, o);
    var c', end := SplitInsert(c, o, ino, fileType, name), o + EntryAt(c, o).recLen;
    if name in NamesAt(c, o) {
      LiveName(c, o, name);
      SplitLive(c, bs, o, ino, fileType, name);
      TwoNamesIs(c', bs, o, end, NamesAt(c, o), map[name := ino]);
      assert name in map[name := ino].Keys && name in NamesAt(c, o).Keys;
    } else {
      SplitSegment(c, bs, o, ino, fileType, name);
      HoldsIs(c, c', bs, o, end, NamesAt(c, o)[name := ino]);
    }
    BrokenSegment(c, c', bs, o, name);
  }

  lemma LiveName(c: seq<byte>, o: nat, name: Name)
    requires name in NamesAt(c, o)
    ensures EntryAt(c, o).inode != 0 && NameAt(c, o) == name
  {
    hide EntryAt, NameAt;
  }

  lemma TwoNamesIs(c: seq<byte>, bs: nat, a: nat, b: nat, first: map<Name, nat>, rest: map<Name, nat>)
    requires bs > 0 && TwoNames(c, bs, a, b, first, rest)
    ensures Tiled(c, bs, a, b) && NameMap(c, bs, a, b) == rest + first
    ensures Distinct(c, bs, a, b) <==> first.Keys !! rest.Keys
  {
  }

  lemma AppendTwice(c: seq<byte>, bs: nat, ino: nat, fileType: nat, name: Name)
    requires bs == 1024 || bs == 2048
    requires DirOk(c, bs) && NameOk(name) && name in DirMap(c, bs)
    requires 0 < ino < TWO32 && fileType < 0x100
    ensures !DirOk(AppendInsert(c, bs, ino, fileType, name), bs)
  {
    hide EntryAt, NameAt, RecOk, Encode, NameOk, PutRecord, NeedLen, Tiled, NameMap, Distinct;
    var e := DirEntry(ino, bs, |name|, fileType);
    var c' := PutRecord(c, |c|, e, name);
    NameFits(name);
    NeedFitsBlock(name);
    PutRecordReads(c, |c|, e, name);
    RecIntro(c', bs, |c|, e, name);
    TiledSame(c, c', bs, 0, |c|);
    TiledJoin(c', bs, 0, |c|, |c'|);
    assert name in map[name := ino].Keys;
  }

  /** Where the search for room ends at the last record, the new record starts at the end of the directory. */
  lemma AppendStart(bs: nat, o: nat, e: Entry, n: nat, need: nat)
    requires bs == 1024 || bs == 2048
    requires o % bs + e.recLen <= bs && o + e.recLen == n && n % bs == 0 && need <= 264
    requires HEADER <= NeedLen(e.nameLen) <= e.recLen && (e.inode == 0 ==> e.nameLen == 0) && SlackLen(e) < need
    ensures var start := o + NeedLen(e.nameLen);
      var rest := bs - start % bs;
      (if rest < need then start + rest else start) == n
  {
    ModInBlock(bs, o, NeedLen(e.nameLen));
    ModInBlock(bs, o, e.recLen);
  }

  // ---- unlinking ----

  /** unlink_file_ext2 tests whether the record before the victim, grown by the victim, would leave its block. It would
      exactly when the victim is the first record of a block. */
  lemma CrossesBlock(c: seq<byte>, bs: nat, p: nat, o: nat)
    requires bs == 1024 || bs == 2048
    requires RecOk(c, bs, p) && NeedPositive(c, p) && o == p + EntryAt(c, p).recLen && RecOk(c, bs, o)
      && NeedPositive(c, o)
    ensures p % bs + (EntryAt(c, p).recLen + EntryAt(c, o).recLen) > bs <==> o % bs == 0
    ensures o % bs == 0 ==> bs - p % bs == EntryAt(c, p).recLen
  {
    hide EntryAt, NameAt, NeedLen;
    ModInBlock(bs, p, EntryAt(c, p).recLen);
  }

  /** unlink_file_ext2 inside a block: the record before takes over the victim's bytes, which are zeroed. */
  function MergeDelete(c: seq<byte>, p: nat, o: nat): seq<byte> {
    var b, v := EntryAt(c, p), EntryAt(c, o);
    Overlay(Overlay(c, p, Encode(b.(recLen := b.recLen + v.recLen))), o, Zeros(v.recLen))
  }

  /** unlink_file_ext2 at the start of a block: the victim becomes a null record of the same length. */
  function NullDelete(c: seq<byte>, o: nat): seq<byte> {
    PutRecord(c, o, DirEntry(0, EntryAt(c, o).recLen, 0, 0), [])
  }

  /** Two neighbouring records. */
  ghost predicate Neighbours(c: seq<byte>, bs: nat, p: nat, o: nat)
    requires bs > 0
  {
    RecordIn(c, bs, p) && RecordIn(c, bs, o) && o == p + EntryAt(c, p).recLen
  }

  lemma MergedRecord(c: seq<byte>, bs: nat, p: nat, o: nat)
    requires bs == 1024 || bs == 2048
    requires Neighbours(c, bs, p, o) && o % bs != 0
    ensures var end := o + EntryAt(c, o).recLen;
      SameOutside(c, MergeDelete(c, p, o), p, end) && Holds(MergeDelete(c, p, o), bs, p, end, NamesAt(c, p))
  {
    hide *;
    NeighbourOks(c, bs, p, o);
    HeaderIs();
    RecordBounds(c, bs, p);
    RecordBounds(c, bs, o);
    CrossesBlock(c, bs, p, o);
    var b, v := EntryAt(c, p), EntryAt(c, o);
    var b' := b.(recLen := b.recLen + v.recLen);
    LongerFits(b, b'.recLen);
    PutHeaderReads(c, p, b');
    MergeDeleteIs(c, p, o);
    MergedBytes(c, Overlay(c, p, Encode(b')), MergeDelete(c, p, o), p, o, v.recLen);
    NullNames(c, p);
    SameLength(c, MergeDelete(c, p, o), p, o + v.recLen);
    RecIntro(MergeDelete(c, p, o), bs, p, b', NameAt(c, p));
    HoldsIntro(MergeDelete(c, p, o), bs, p, o + v.recLen, NamesAt(c, p));
  }

  lemma NeighbourOks(c: seq<byte>, bs: nat, p: nat, o: nat)
    requires bs > 0 && Neighbours(c, bs, p, o)
    ensures RecordIn(c, bs, p) && RecordIn(c, bs, o) && o == p + EntryAt(c, p).recLen
    ensures RecOk(c, bs, p) && NeedPositive(c, p) && RecOk(c, bs, o) && NeedPositive(c, o)
  {
    hide RecOk, NeedPositive, EntryAt, Tiled;
  }

  lemma LongerFits(e: Entry, len: nat)
    requires EntryFits(e) && len < 0x1_0000
    ensures EntryFits(e.(recLen := len))
  {
  }

  lemma MergeDeleteIs(c: seq<byte>, p: nat, o: nat)
    ensures var b, v := EntryAt(c, p), EntryAt(c, o);
      MergeDelete(c, p, o) == Overlay(Overlay(c, p, Encode(b.(recLen := b.recLen + v.recLen))), o, Zeros(v.recLen))
  {
    hide EntryAt, Encode;
  }

  lemma NullNames(c: seq<byte>, o: nat)
    ensures NamesAt(c, o) == if EntryAt(c, o).inode == 0 then map[] else map[NameAt(c, o) := EntryAt(c, o).inode]
  {
  }

  lemma HoldsIntro(c: seq<byte>, bs: nat, a: nat, b: nat, names: map<Name, nat>)
    requires bs > 0 && Tiled(c, bs, a, b) && Distinct(c, bs, a, b) && NameMap(c, bs, a, b) == names
    ensures Holds(c, bs, a, b, names)
  {
    hide Tiled, Distinct, NameMap;
  }

  lemma MergedBytes(c: seq<byte>, c1: seq<byte>, c': seq<byte>, p: nat, o: nat, len: nat)
    requires |c1| == |c| && p + HEADER + EntryAt(c, p).nameLen <= o && o + len <= |c|
      && c' == Overlay(c1, o, Zeros(len))
    requires forall k | 0 <= k < |c| && !(p <= k < p + HEADER) :: c1[k] == c[k]
    requires EntryAt(c1, p).nameLen == EntryAt(c, p).nameLen
    ensures SameOutside(c, c', p, o + len) && EntryAt(c', p) == EntryAt(c1, p) && NameAt(c', p) == NameAt(c, p)
  {
    hide EntryAt, NameAt;
    HeadSame(c', c1, p);
    NameSame(c, c', p);
  }

  /** Unlinking a record that is not the first one of its block: its name is gone, all others are as before. */
  lemma DeleteMerge(c: seq<byte>, bs: nat, p: nat, o: nat)
    requires bs == 1024 || bs == 2048
    requires DirOk(c, bs) && Neighbours(c, bs, p, o) && o % bs != 0
    ensures DirOk(MergeDelete(c, p, o), bs) && |MergeDelete(c, p, o)| == |c|
    ensures DirMap(MergeDelete(c, p, o), bs) == DirMap(c, bs) - NamesAt(c, o).Keys
  {
    hide *;
    NeighbourOks(c, bs, p, o);
    MergedRecord(c, bs, p, o);
    RecordBounds(c, bs, o);
    ReplaceTwo(c, MergeDelete(c, p, o), bs, p, o);
  }

  lemma ReplaceTwo(c: seq<byte>, c': seq<byte>, bs: nat, p: nat, o: nat)
    requires bs > 0 && DirOk(c, bs) && Neighbours(c, bs, p, o) && o + EntryAt(c, o).recLen <= |c|
    requires SameOutside(c, c', p, o + EntryAt(c, o).recLen)
      && Holds(c', bs, p, o + EntryAt(c, o).recLen, NamesAt(c, p))
    ensures DirOk(c', bs) && |c'| == |c| && DirMap(c', bs) == DirMap(c, bs) - NamesAt(c, o).Keys
  {
    hide RecOk, NamesAt, EntryAt;
    var end := o + EntryAt(c, o).recLen;
    TiledOne(c, bs, p);
    TiledOne(c, bs, o);
    hide Tiled, NameMap, Distinct;
    TiledJoin(c, bs, p, o, end);
    TiledJoin(c, bs, 0, p, end);
    TiledJoin(c, bs, 0, end, |c|);
    hide NeedPositive;
    ReplaceSegment(c, c', bs, p, end);
    MapDelete(NameMap(c, bs, end, |c|), NameMap(c, bs, 0, p), NamesAt(c, p), NamesAt(c, o));
  }

  lemma MapDelete(after: map<Name, nat>, before: map<Name, nat>, p: map<Name, nat>, o: map<Name, nat>)
    requires p.Keys !! o.Keys && before.Keys !! (o + p).Keys && ((o + p) + before).Keys !! after.Keys
    ensures ((after + ((o + p) + before)) - (o + p).Keys) + p == (after + ((o + p) + before)) - o.Keys
  {
  }

  /** Unlinking the first record of a block: the block keeps a null record, the name is gone, all others are as
      before. */
  lemma DeleteNull(c: seq<byte>, bs: nat, o: nat)
    requires bs == 1024 || bs == 2048
    requires DirOk(c, bs) && RecordIn(c, bs, o)
    ensures DirOk(NullDelete(c, o), bs) && |NullDelete(c, o)| == |c|
    ensures DirMap(NullDelete(c, o), bs) == DirMap(c, bs) - NamesAt(c, o).Keys
  {
    hide *;
    NulledRecord(c, bs, o);
    RecordEnd(c, bs, o);
    ReplaceRecord(c, NullDelete(c, o), bs, o, map[]);
    assert (DirMap(c, bs) - NamesAt(c, o).Keys) + map[] == DirMap(c, bs) - NamesAt(c, o).Keys;
    SameLength(c, NullDelete(c, o), o, o + EntryAt(c, o).recLen);
  }

  lemma SameLength(c: seq<byte>, c': seq<byte>, a: nat, b: nat)
    requires SameOutside(c, c', a, b)
    ensures |c'| == |c|
  {
  }

  lemma NulledRecord(c: seq<byte>, bs: nat, o: nat)
    requires bs == 1024 || bs == 2048
    requires RecordIn(c, bs, o)
    ensures var end := o + EntryAt(c, o).recLen;
      SameOutside(c, NullDelete(c, o), o, end) && Holds(NullDelete(c, o), bs, o, end, map[])
  {
    hide EntryAt, NameAt, Tiled, Distinct, NameMap, NeedLen, Encode, NameOk, RecOk, PutRecord;
    RecordBounds(c, bs, o);
    NeedLenFacts(0);
    NeedLenFacts(EntryAt(c, o).nameLen);
    var e := DirEntry(0, EntryAt(c, o).recLen, 0, 0);
    PutRecordReads(c, o, e, []);
    assert NeedLen(0) == 8 by { NeedOfNone(); }
    RecIntro(NullDelete(c, o), bs, o, e, []);
  }

  lemma NeedOfNone()
    ensures NeedLen(0) == HEADER == 8
  {
  }

  /** The record at the start of the directory keeps its inode and its name when another record is unlinked. */
  ghost predicate FirstKept(c: seq<byte>, c': seq<byte>) {
    EntryAt(c', 0).inode == EntryAt(c, 0).inode && NameAt(c', 0) == NameAt(c, 0)
  }

  lemma FirstSame(c: seq<byte>, c': seq<byte>, bs: nat, q: nat)
    requires bs > 0 && q > 0 && RecordIn(c, bs, q) && |c'| == |c| && forall k | 0 <= k < q :: c'[k] == c[k]
    ensures FirstKept(c, c')
  {
    hide EntryAt, NameAt;
    TiledNext(c, bs, 0, q);
    NeedLenFacts(EntryAt(c, 0).nameLen);
    HeadSame(c', c, 0);
    NameSame(c, c', 0);
  }

  lemma FirstAfterMerge(c: seq<byte>, bs: nat, p: nat, o: nat)
    requires bs == 1024 || bs == 2048
    requires Neighbours(c, bs, p, o) && o % bs != 0
    ensures FirstKept(c, MergeDelete(c, p, o))
  {
    hide EntryAt, NameAt, Tiled, NeedLen, Encode, NameOk;
    RecordBounds(c, bs, p);
    RecordBounds(c, bs, o);
    CrossesBlock(c, bs, p, o);
    hide RecOk;
    var b, v := EntryAt(c, p), EntryAt(c, o);
    var b' := b.(recLen := b.recLen + v.recLen);
    var c1 := Overlay(c, p, Encode(b'));
    var c' := MergeDelete(c, p, o);
    PutHeaderReads(c, p, b');
    if p == 0 {
      HeadSame(c', c1, p);
      NameSame(c, c', p);
    } else {
      FirstSame(c, c', bs, p);
    }
  }

  lemma FirstAfterNull(c: seq<byte>, bs: nat, o: nat)
    requires bs == 1024 || bs == 2048
    requires RecordIn(c, bs, o) && o > 0
    ensures FirstKept(c, NullDelete(c, o))
  {
    hide EntryAt, NameAt, Tiled, NeedLen, Encode, NameOk, PutRecord, RecordIn;
    RecordBounds(c, bs, o);
    PutRecordReads(c, o, DirEntry(0, EntryAt(c, o).recLen, 0, 0), []);
    FirstSame(c, NullDelete(c, o), bs, o);
  }

  // ---- "." and ".." ----

  const DOT: Name := [46]
  const DOTDOT: Name := [46, 46]

  /** The two records every directory begins with; the first one has no room to spare. */
  ghost predicate Dots(c: seq<byte>, self: nat, parent: nat) {
    && 24 <= |c|
    && EntryAt(c, 0).inode == self != 0 && EntryAt(c, 0).recLen == 12 && EntryAt(c, 0).nameLen == 1
      && NameAt(c, 0) == DOT
    && EntryAt(c, 12).inode == parent != 0 && EntryAt(c, 12).nameLen == 2 && NameAt(c, 12) == DOTDOT
  }

  lemma DotsPositions(c: seq<byte>, bs: nat, self: nat, parent: nat, o: nat)
    requires bs > 0 && Dots(c, self, parent) && RecordIn(c, bs, o)
    ensures o == 0 || o == 12 || 24 <= o
    ensures o > 0 ==> RecOk(c, bs, 12) && NeedPositive(c, 12) && 12 <= EntryAt(c, 12).recLen
  {
    hide EntryAt, NameAt, NeedLen;
    assert NeedLen(2) == 12 by { NeedOfTwo(); }
    if o > 0 {
      TiledNext(c, bs, 0, o);
      if o > 12 {
        TiledNext(c, bs, 12, o);
      }
    }
  }

  lemma NeedOfTwo()
    ensures NeedLen(1) == 12 && NeedLen(2) == 12
  {
  }

  /** The dots stay when bytes 0..12 and the second record's inode and name stay. */
  lemma DotsSame(c: seq<byte>, c': seq<byte>, self: nat, parent: nat)
    requires Dots(c, self, parent) && |c| <= |c'|
    requires forall k | 0 <= k < 12 :: c'[k] == c[k]
    requires EntryAt(c', 12).inode == EntryAt(c, 12).inode && EntryAt(c', 12).nameLen == EntryAt(c, 12).nameLen
    requires NameAt(c', 12) == NameAt(c, 12)
    ensures Dots(c', self, parent)
  {
    HeadSame(c', c, 0);
    NameSame(c, c', 0);
  }

  lemma DotsBehind(c: seq<byte>, c': seq<byte>, self: nat, parent: nat)
    requires Dots(c, self, parent) && |c| <= |c'|
    requires forall k | 0 <= k < 24 :: c'[k] == c[k]
    ensures Dots(c', self, parent)
  {
    hide EntryAt, NameAt;
    HeadSame(c', c, 12);
    NameSame(c, c', 12);
    DotsSame(c, c', self, parent);
  }

  lemma DotsAfterSplit(c: seq<byte>, bs: nat, o: nat, ino: nat, fileType: nat, name: Name, self: nat, parent: nat)
    requires bs == 1024 || bs == 2048
    requires Dots(c, self, parent) && RecordIn(c, bs, o) && NameOk(name)
    requires 0 < ino < TWO32 && fileType < 0x100 && SlackLen(EntryAt(c, o)) >= NeedLen(|name|)
    ensures Dots(SplitInsert(c, o, ino, fileType, name), self, parent)
  {
    hide EntryAt, NameAt, RecOk, Tiled, NeedLen, Encode, NameOk, PutRecord;
    DotsPositions(c, bs, self, parent, o);
    RecordBounds(c, bs, o);
    NameFits(name);
    NeedLenFacts(|name|);
    NeedOfTwo();
    var e := EntryAt(c, o);
    var used := UsedLen(e);
    var c1 := if e.inode == 0 then c else Overlay(c, o, Encode(e.(recLen := used)));
    PutRecordReads(c1, o + used, DirEntry(ino, SlackLen(e), |name|, fileType), name);
    var c' := SplitInsert(c, o, ino, fileType, name);
    if o == 12 {
      PutHeaderReads(c, o, e.(recLen := used));
      HeadSame(c', c1, o);
      NameSame(c, c', o);
      DotsSame(c, c', self, parent);
    } else {
      if e.inode != 0 { PutHeaderReads(c, o, e.(recLen := used)); }
      DotsBehind(c, c', self, parent);
    }
  }

  lemma DotsAfterAppend(c: seq<byte>, bs: nat, ino: nat, fileType: nat, name: Name, self: nat, parent: nat)
    requires bs == 1024 || bs == 2048
    requires Dots(c, self, parent) && NameOk(name) && 0 < ino < TWO32 && fileType < 0x100
    ensures Dots(AppendInsert(c, bs, ino, fileType, name), self, parent)
  {
    hide EntryAt, NameAt, Encode, PutRecord;
    NameFits(name);
    PutRecordReads(c, |c|, DirEntry(ino, bs, |name|, fileType), name);
    DotsBehind(c, AppendInsert(c, bs, ino, fileType, name), self, parent);
  }

  lemma DotsAfterMerge(c: seq<byte>, bs: nat, p: nat, o: nat, self: nat, parent: nat)
    requires bs == 1024 || bs == 2048
    requires Dots(c, self, parent) && Neighbours(c, bs, p, o) && o % bs != 0 && o != 12
    ensures Dots(MergeDelete(c, p, o), self, parent)
  {
    hide EntryAt, NameAt, Tiled, NeedLen, Encode, NameOk;
    DotsPositions(c, bs, self, parent, p);
    DotsPositions(c, bs, self, parent, o);
    RecordBounds(c, bs, p);
    RecordBounds(c, bs, o);
    CrossesBlock(c, bs, p, o);
    hide RecOk;
    var b, v := EntryAt(c, p), EntryAt(c, o);
    var b' := b.(recLen := b.recLen + v.recLen);
    var c1 := Overlay(c, p, Encode(b'));
    var c' := MergeDelete(c, p, o);
    PutHeaderReads(c, p, b');
    if p == 12 {
      HeadSame(c', c1, p);
      NameSame(c, c', p);
      DotsSame(c, c', self, parent);
    } else {
      DotsBehind(c, c', self, parent);
    }
  }

  lemma DotsAfterNull(c: seq<byte>, bs: nat, o: nat, self: nat, parent: nat)
    requires bs == 1024 || bs == 2048
    requires Dots(c, self, parent) && RecordIn(c, bs, o) && o != 0 && o % bs == 0
    ensures Dots(NullDelete(c, o), self, parent)
  {
    hide EntryAt, NameAt, Tiled, NeedLen, Encode, NameOk, RecOk, PutRecord;
    DotsPositions(c, bs, self, parent, o);
    RecordBounds(c, bs, o);
    PutRecordReads(c, o, DirEntry(0, EntryAt(c, o).recLen, 0, 0), []);
    DotsBehind(c, NullDelete(c, o), self, parent);
  }
}
