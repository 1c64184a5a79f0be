/** The byte stream a snapshot feeds to its hash (crates/premonition-core/src/snapshot.rs:75-106,
    250-260), and why it can be read back in only one way. */
module Stream {
  import opened Text

  /** One `char` is one byte, as in `Text`. */
  type Bytes = string

  /** The metadata fields that are hashed; times are signed. */
  datatype Metadata = Metadata(
    dev: nat, ino: nat, mode: nat, nlink: nat, len: nat,
    mtime: int, mtimeNsec: int, ctime: int, ctimeNsec: int)
  {
    predicate Valid() {
      && dev < TWO64 && ino < TWO64 && mode < TWO32 && nlink < TWO64 && len < TWO64
      && IsI64(mtime) && IsI64(mtimeNsec) && IsI64(ctime) && IsI64(ctimeNsec)
    }
  }

  datatype Entry = File(meta: Metadata, content: Bytes) | Symlink(meta: Metadata, target: Bytes) | Missing

  datatype Item = Item(path: Bytes, entry: Entry)

  const TWO32: nat := 0x1_0000_0000
  const TWO64: nat := 0x1_0000_0000_0000_0000

  predicate IsI64(x: int) {
    -0x8000_0000_0000_0000 <= x < 0x8000_0000_0000_0000
  }

  /** `to_be_bytes` of an unsigned number of `width` bytes. */
  function BigEndian(n: nat, width: nat): (b: Bytes)
    ensures |b| == width
  {
    if width == 0 then [] else BigEndian(n / 256, width - 1) + [(n % 256) as char]
  }

  /** Two's complement of a signed 64-bit number. */
  function Unsigned(x: int): nat {
    x % TWO64
  }

  function EncodeMetadata(m: Metadata): (b: Bytes)
    ensures |b| == 68
  {
    BigEndian(m.dev, 8) + BigEndian(m.ino, 8) + BigEndian(m.mode, 4) + BigEndian(m.nlink, 8)
    + BigEndian(m.len, 8) + BigEndian(Unsigned(m.mtime), 8) + BigEndian(Unsigned(m.mtimeNsec), 8)
    + BigEndian(Unsigned(m.ctime), 8) + BigEndian(Unsigned(m.ctimeNsec), 8)
  }

  const PATH_TAG: Bytes := "path\0"
  const FILE_TAG: Bytes := "file\0"
  const SYMLINK_TAG: Bytes := "symlink\0"
  const MISSING_TAG: Bytes := "missing\0"

  function EncodeEntry(e: Entry): (b: Bytes)
    ensures b != []
  {
    match e
    case File(m, content) => FILE_TAG + EncodeMetadata(m) + content
    case Symlink(m, target) => SYMLINK_TAG + EncodeMetadata(m) + target
    case Missing => MISSING_TAG
  }

  function EncodeItem(i: Item): (b: Bytes)
    ensures b != []
  {
    PATH_TAG + i.path + ['\0'] + EncodeEntry(i.entry)
  }

  function Encode(items: seq<Item>): (b: Bytes)
    ensures items != [] ==> b != []
  {
    if items == [] then [] else EncodeItem(items[0]) + Encode(items[1..])
  }

  /** What the file system guarantees of what was read: the length it reported is the length
      read, and no path holds a NUL. */
  predicate Honest(i: Item) {
    && (!i.entry.Missing? ==> i.entry.meta.Valid())
    && '\0' !in i.path
    && (i.entry.File? ==> |i.entry.content| == i.entry.meta.len)
    && (i.entry.Symlink? ==> |i.entry.target| == i.entry.meta.len)
  }

  // ---- reading back ----

  lemma PrefixCut<T>(a: seq<T>, b: seq<T>, x: seq<T>, y: seq<T>)
    requires a + x == b + y && |a| == |b|
    ensures a == b && x == y
  {
    assert a == (a + x)[..|a|] && b == (b + y)[..|b|];
    assert x == (a + x)[|a|..] && y == (b + y)[|b|..];
  }

  function Power256(k: nat): nat {
    if k == 0 then 1 else 256 * Power256(k - 1)
  }

  lemma {:induction false} BigEndianInjective(m: nat, n: nat, width: nat)
    requires m < Power256(width) && n < Power256(width) && BigEndian(m, width) == BigEndian(n, width)
    ensures m == n
  {
    if width > 0 {
      PrefixCut(BigEndian(m / 256, width - 1), BigEndian(n / 256, width - 1), [(m % 256) as char], [(n % 256) as char]);
      assert [(m % 256) as char][0] == [(n % 256) as char][0];
      BigEndianInjective(m / 256, n / 256, width - 1);
    }
  }

  lemma FieldWidths()
    ensures Power256(4) == TWO32 && Power256(8) == TWO64
  {
    assert Power256(2) == 0x1_0000;
    assert Power256(4) == 0x1_0000 * Power256(2);
    assert Power256(6) == 0x1_0000 * Power256(4);
    assert Power256(8) == 0x1_0000 * Power256(6);
  }

  lemma Field(m: nat, n: nat, width: nat, x: Bytes, y: Bytes)
    requires width == 4 || width == 8
    requires m < (if width == 4 then TWO32 else TWO64) && n < (if width == 4 then TWO32 else TWO64)
    requires x + BigEndian(m, width) == y + BigEndian(n, width)
    ensures m == n && x == y
  {
    FieldWidths();
    PrefixCut(x, y, BigEndian(m, width), BigEndian(n, width));
    BigEndianInjective(m, n, width);
  }

  lemma MetadataInjective(m: Metadata, n: Metadata)
    requires m.Valid() && n.Valid() && EncodeMetadata(m) == EncodeMetadata(n)
    ensures m == n
  {
    hide BigEndian;
    var m1 := BigEndian(m.dev, 8);
    var n1 := BigEndian(n.dev, 8);
    var m2, n2 := m1 + BigEndian(m.ino, 8), n1 + BigEndian(n.ino, 8);
    var m3, n3 := m2 + BigEndian(m.mode, 4), n2 + BigEndian(n.mode, 4);
    var m4, n4 := m3 + BigEndian(m.nlink, 8), n3 + BigEndian(n.nlink, 8);
    var m5, n5 := m4 + BigEndian(m.len, 8), n4 + BigEndian(n.len, 8);
    var m6, n6 := m5 + BigEndian(Unsigned(m.mtime), 8), n5 + BigEndian(Unsigned(n.mtime), 8);
    var m7, n7 := m6 + BigEndian(Unsigned(m.mtimeNsec), 8), n6 + BigEndian(Unsigned(n.mtimeNsec), 8);
    var m8, n8 := m7 + BigEndian(Unsigned(m.ctime), 8), n7 + BigEndian(Unsigned(n.ctime), 8);
    Field(Unsigned(m.ctimeNsec), Unsigned(n.ctimeNsec), 8, m8, n8);
    Field(Unsigned(m.ctime), Unsigned(n.ctime), 8, m7, n7);
    Field(Unsigned(m.mtimeNsec), Unsigned(n.mtimeNsec), 8, m6, n6);
    Field(Unsigned(m.mtime), Unsigned(n.mtime), 8, m5, n5);
    Field(m.len, n.len, 8, m4, n4);
    Field(m.nlink, n.nlink, 8, m3, n3);
    Field(m.mode, n.mode, 4, m2, n2);
    Field(m.ino, n.ino, 8, m1, n1);
    Field(m.dev, n.dev, 8, [], []);
  }

  /** Metadata and then as many bytes as its length field says. */
  lemma BodyCut(m: Metadata, n: Metadata, c: Bytes, d: Bytes, x: Bytes, y: Bytes)
    requires m.Valid() && n.Valid() && |c| == m.len && |d| == n.len
    requires EncodeMetadata(m) + (c + x) == EncodeMetadata(n) + (d + y)
    ensures m == n && c == d && x == y
  {
    PrefixCut(EncodeMetadata(m), EncodeMetadata(n), c + x, d + y);
    MetadataInjective(m, n);
    PrefixCut(c, d, x, y);
  }

  lemma Regroup(a: Bytes, b: Bytes, c: Bytes, x: Bytes)
    ensures a + b + c + x == a + (b + (c + x))
  {
  }

  /** The first byte of the tag tells the kind. */
  lemma KindDecided(e: Entry, f: Entry, x: Bytes, y: Bytes)
    requires EncodeEntry(e) + x == EncodeEntry(f) + y
    ensures e.File? == f.File? && e.Symlink? == f.Symlink?
  {
    hide EncodeMetadata;
    assert (EncodeEntry(e) + x)[0] == EncodeEntry(e)[0] && (EncodeEntry(f) + y)[0] == EncodeEntry(f)[0];
    assert EncodeEntry(e)[0] == (if e.File? then 'f' else if e.Symlink? then 's' else 'm');
    assert EncodeEntry(f)[0] == (if f.File? then 'f' else if f.Symlink? then 's' else 'm');
  }

  lemma TaggedCut(tag: Bytes, m: Metadata, n: Metadata, c: Bytes, d: Bytes, x: Bytes, y: Bytes)
    requires m.Valid() && n.Valid() && |c| == m.len && |d| == n.len
    requires tag + EncodeMetadata(m) + c + x == tag + EncodeMetadata(n) + d + y
    ensures m == n && c == d && x == y
  {
    Regroup(tag, EncodeMetadata(m), c, x);
    Regroup(tag, EncodeMetadata(n), d, y);
    PrefixCut(tag, tag, EncodeMetadata(m) + (c + x), EncodeMetadata(n) + (d + y));
    BodyCut(m, n, c, d, x, y);
  }

  lemma EntryCut(e: Entry, f: Entry, x: Bytes, y: Bytes)
    requires Honest(Item([], e)) && Honest(Item([], f))
    requires EncodeEntry(e) + x == EncodeEntry(f) + y
    ensures e == f && x == y
  {
    KindDecided(e, f, x, y);
    hide EncodeMetadata;
    match e {
      case File(m, c) => TaggedCut(FILE_TAG, m, f.meta, c, f.content, x, y);
      case Symlink(m, c) => TaggedCut(SYMLINK_TAG, m, f.meta, c, f.target, x, y);
      case Missing => PrefixCut(MISSING_TAG, MISSING_TAG, x, y);
    }
  }

  lemma ItemCut(i: Item, j: Item, x: Bytes, y: Bytes)
    requires Honest(i) && Honest(j) && EncodeItem(i) + x == EncodeItem(j) + y
    ensures i == j && x == y
  {
    hide EncodeEntry;
    var u, v := EncodeEntry(i.entry) + x, EncodeEntry(j.entry) + y;
    assert EncodeItem(i) + x == PATH_TAG + (i.path + ['\0'] + u);
    assert EncodeItem(j) + y == PATH_TAG + (j.path + ['\0'] + v);
    PrefixCut(PATH_TAG, PATH_TAG, i.path + ['\0'] + u, j.path + ['\0'] + v);
    CutUnique(i.path, j.path, '\0', u, v);
    EntryCut(i.entry, j.entry, x, y);
  }

  /** The stream decides the listing: no two honest listings feed the hash the same bytes. */
  lemma {:induction false} StreamDecidesListing(a: seq<Item>, b: seq<Item>)
    requires forall i | 0 <= i < |a| :: Honest(a[i])
    requires forall i | 0 <= i < |b| :: Honest(b[i])
    requires Encode(a) == Encode(b)
    ensures a == b
  {
    hide EncodeItem, Honest;
    if a != [] && b != [] {
      ItemCut(a[0], b[0], Encode(a[1..]), Encode(b[1..]));
      StreamDecidesListing(a[1..], b[1..]);
      assert a == [a[0]] + a[1..] && b == [b[0]] + b[1..];
    }
  }

  /** The length field is what carries this: nothing ends a link target or a content, so with a
      wrong length in the metadata two different listings feed the same bytes. */
  lemma WrongLengthsCollide(m: Metadata)
    requires m.Valid()
    ensures var hidden := PATH_TAG + "b" + ['\0'] + MISSING_TAG;
            var a := [Item("a", Symlink(m, "t")), Item("b", Missing)];
            var b := [Item("a", Symlink(m, "t" + hidden))];
            a != b && Encode(a) == Encode(b)
  {
    hide EncodeMetadata;
    var hidden := PATH_TAG + "b" + ['\0'] + MISSING_TAG;
    var a := [Item("a", Symlink(m, "t")), Item("b", Missing)];
    var b := [Item("a", Symlink(m, "t" + hidden))];
    var head := PATH_TAG + "a" + ['\0'] + (SYMLINK_TAG + EncodeMetadata(m) + "t");
    assert a[1..] == [Item("b", Missing)] && a[1..][1..] == [];
    assert Encode(a[1..]) == hidden + Encode([]);
    assert Encode(a) == head + hidden;
    assert b[1..] == [];
    assert EncodeItem(b[0]) == head + hidden;
    assert Encode(b) == head + hidden;
  }
}
