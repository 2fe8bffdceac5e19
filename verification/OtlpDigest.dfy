/**
 The bytes a log record's identifier is a digest of. The encoding is tagged
 and length-prefixed, so it can be read back: two records give the same bytes
 exactly when they have the same content, where an attribute or element
 without a value counts as one whose value is empty, and attributes count in
 any order as long as those with one key keep theirs.
 */
module OtlpDigest {
  import opened Common

  const TWO_64: int := 0x1_0000_0000_0000_0000

  type Byte = b: int | 0 <= b < 256
  type U64 = x: int | 0 <= x < TWO_64
  type I64 = x: int | I64_MIN <= x <= I64_MAX

  // OTLP values as received

  datatype AnyValue = AnyValue(value: Option<Value>)

  datatype Value =
    | StringValue(text: seq<Byte>)
    | BoolValue(flag: bool)
    | IntValue(number: I64)
    | DoubleValue(bits: U64)
    | ArrayValue(items: seq<AnyValue>)
    | KvlistValue(entries: seq<KeyValue>)
    | BytesValue(bytes: seq<Byte>)

  datatype KeyValue = KeyValue(key: seq<Byte>, value: Option<AnyValue>)

  datatype LogRecord = LogRecord(
    timeUnixNano: U64, observedTimeUnixNano: U64, traceId: seq<Byte>, spanId: seq<Byte>,
    attributes: seq<KeyValue>, body: Option<AnyValue>)

  // Content: a missing value and an empty value are one

  datatype Content =
    | Nothing
    | Text(text: seq<Byte>)
    | Flag(flag: bool)
    | Integer(number: I64)
    | Double(bits: U64)
    | List(items: seq<Content>)
    | Dictionary(entries: seq<Entry>)
    | Blob(bytes: seq<Byte>)

  datatype Entry = Entry(key: seq<Byte>, content: Content)

  function ContentOf(v: AnyValue): Content
    decreases v, 1
  {
    match v.value
    case None => Nothing
    case Some(StringValue(text)) => Text(text)
    case Some(BoolValue(flag)) => Flag(flag)
    case Some(IntValue(number)) => Integer(number)
    case Some(DoubleValue(bits)) => Double(bits)
    case Some(ArrayValue(items)) => List(ContentsOf(items))
    case Some(KvlistValue(entries)) => Dictionary(EntriesOf(entries))
    case Some(BytesValue(bytes)) => Blob(bytes)
  }

  function ContentOfOptional(v: Option<AnyValue>): Content
    decreases v, 0
  {
    if v.None? then Nothing else ContentOf(v.value)
  }

  function ContentsOf(items: seq<AnyValue>): (r: seq<Content>)
    ensures |r| == |items|
    ensures forall i :: 0 <= i < |items| ==> r[i] == ContentOf(items[i])
    decreases items, 0
  {
    if items == [] then [] else [ContentOf(items[0])] + ContentsOf(items[1..])
  }

  function EntryOf(e: KeyValue): Entry
    decreases e, 2
  {
    Entry(e.key, ContentOfOptional(e.value))
  }

  function EntriesOf(entries: seq<KeyValue>): (r: seq<Entry>)
    ensures |r| == |entries|
    ensures forall i :: 0 <= i < |entries| ==> r[i] == EntryOf(entries[i])
    decreases entries, 0
  {
    if entries == [] then [] else [EntryOf(entries[0])] + EntriesOf(entries[1..])
  }

  // Encoding

  /** The `n` low bytes of `x`, most significant first. */
  function BigEndian(x: nat, n: nat): (r: seq<Byte>)
    ensures |r| == n
  {
    if n == 0 then [] else BigEndian(x / 256, n - 1) + [x % 256]
  }

  /** `to_be_bytes` of a 64-bit integer: two's complement, most significant byte first. */
  function Be64(x: int): (r: seq<Byte>)
    ensures |r| == 8
  {
    BigEndian(x % TWO_64, 8)
  }

  function EncodeBytes(bytes: seq<Byte>): seq<Byte> {
    Be64(|bytes|) + bytes
  }

  function Tag(c: Content): Byte {
    match c
    case Nothing => 0
    case Text(_) => 1
    case Flag(_) => 2
    case Integer(_) => 3
    case Double(_) => 4
    case List(_) => 5
    case Dictionary(_) => 6
    case Blob(_) => 7
  }

  function Payload(c: Content): seq<Byte>
    decreases c, 1
  {
    match c
    case Nothing => []
    case Text(text) => EncodeBytes(text)
    case Flag(flag) => [if flag then 1 else 0]
    case Integer(number) => Be64(number)
    case Double(bits) => Be64(bits)
    case List(items) => Be64(|items|) + EncodeItems(items)
    case Dictionary(entries) => Be64(|entries|) + EncodeEntries(entries)
    case Blob(bytes) => EncodeBytes(bytes)
  }

  function Encode(c: Content): seq<Byte>
    decreases c, 2
  {
    [Tag(c)] + Payload(c)
  }

  function EncodeItems(items: seq<Content>): seq<Byte>
    decreases items, 0
  {
    if items == [] then [] else Encode(items[0]) + EncodeItems(items[1..])
  }

  function EncodeEntries(entries: seq<Entry>): seq<Byte>
    decreases entries, 0
  {
    if entries == [] then []
    else EncodeBytes(entries[0].key) + Encode(entries[0].content) + EncodeEntries(entries[1..])
  }

  // Lengths fit in 64 bits, as every length in memory does

  ghost predicate Sized(c: Content) {
    match c
    case Text(text) => |text| < TWO_64
    case Blob(bytes) => |bytes| < TWO_64
    case List(items) => |items| < TWO_64 && forall i :: 0 <= i < |items| ==> Sized(items[i])
    case Dictionary(entries) => |entries| < TWO_64 && AllSized(entries)
    case _ => true
  }

  ghost predicate AllSized(entries: seq<Entry>) {
    forall i :: 0 <= i < |entries| ==> |entries[i].key| < TWO_64 && Sized(entries[i].content)
  }

  // Unique decoding

  lemma SplitEqual(p: seq<Byte>, q: seq<Byte>, x: seq<Byte>, y: seq<Byte>)
    requires |p| == |q| && p + x == q + y
    ensures p == q && x == y
  {
    assert p == (p + x)[..|p|];
    assert q == (q + y)[..|q|];
    assert x == (p + x)[|p|..];
    assert y == (q + y)[|q|..];
  }

  function Pow256(n: nat): nat {
    if n == 0 then 1 else 256 * Pow256(n - 1)
  }

  lemma {:induction false} BigEndianInjective(x: nat, y: nat, n: nat)
    requires x < Pow256(n) && y < Pow256(n) && BigEndian(x, n) == BigEndian(y, n)
    ensures x == y
  {
    if n > 0 {
      SplitEqual(BigEndian(x / 256, n - 1), BigEndian(y / 256, n - 1), [x % 256], [y % 256]);
      BigEndianInjective(x / 256, y / 256, n - 1);
    }
  }

  lemma Be64Injective(x: int, y: int)
    requires Be64(x) == Be64(y)
    ensures x % TWO_64 == y % TWO_64
  {
    assert Pow256(8) == TWO_64 by {
      assert Pow256(4) == 0x1_0000_0000;
      assert Pow256(8) == 256 * (256 * (256 * (256 * Pow256(4))));
    }
    BigEndianInjective(x % TWO_64, y % TWO_64, 8);
  }

  lemma Associate(p: seq<Byte>, q: seq<Byte>, r: seq<Byte>)
    ensures (p + q) + r == p + (q + r)
  {
  }

  /** A count in front of a payload is read before it. */
  lemma CountDecode(n: nat, m: nat, p: seq<Byte>, q: seq<Byte>, x: seq<Byte>, y: seq<Byte>)
    requires n < TWO_64 && m < TWO_64 && (Be64(n) + p) + x == (Be64(m) + q) + y
    ensures n == m && p + x == q + y
  {
    Associate(Be64(n), p, x);
    Associate(Be64(m), q, y);
    SplitEqual(Be64(n), Be64(m), p + x, q + y);
    Be64Injective(n, m);
  }

  lemma BytesDecode(a: seq<Byte>, b: seq<Byte>, x: seq<Byte>, y: seq<Byte>)
    requires |a| < TWO_64 && |b| < TWO_64
    requires EncodeBytes(a) + x == EncodeBytes(b) + y
    ensures a == b && x == y
  {
    CountDecode(|a|, |b|, a, b, x, y);
    SplitEqual(a, b, x, y);
  }

  lemma WordDecode(a: int, b: int, x: seq<Byte>, y: seq<Byte>)
    requires Be64(a) + x == Be64(b) + y
    ensures a % TWO_64 == b % TWO_64 && x == y
  {
    SplitEqual(Be64(a), Be64(b), x, y);
    Be64Injective(a, b);
  }

  lemma TagDecode(a: Content, b: Content, x: seq<Byte>, y: seq<Byte>)
    requires Encode(a) + x == Encode(b) + y
    ensures Tag(a) == Tag(b) && Payload(a) + x == Payload(b) + y
  {
    Associate([Tag(a)], Payload(a), x);
    Associate([Tag(b)], Payload(b), y);
    SplitEqual([Tag(a)], [Tag(b)], Payload(a) + x, Payload(b) + y);
  }

  /** No encoding is the start of another: what follows a value is known once the value is read. */
  lemma {:induction false} Decode(a: Content, b: Content, x: seq<Byte>, y: seq<Byte>)
    requires Sized(a) && Sized(b) && Encode(a) + x == Encode(b) + y
    ensures a == b && x == y
    decreases a, 1
  {
    TagDecode(a, b, x, y);
    match a
    case List(items) =>
      CountDecode(|items|, |b.items|, EncodeItems(items), EncodeItems(b.items), x, y);
      DecodeItems(items, b.items, x, y);
    case Dictionary(entries) =>
      CountDecode(|entries|, |b.entries|, EncodeEntries(entries), EncodeEntries(b.entries), x, y);
      DecodeEntries(entries, b.entries, x, y);
    case _ => DecodeScalar(a, b, x, y);
  }

  lemma DecodeScalar(a: Content, b: Content, x: seq<Byte>, y: seq<Byte>)
    requires Sized(a) && Sized(b) && !a.List? && !a.Dictionary?
    requires Tag(a) == Tag(b) && Payload(a) + x == Payload(b) + y
    ensures a == b && x == y
  {
    match a
    case Nothing => SplitEqual([], [], x, y);
    case Text(text) =>
      assert Payload(a) == EncodeBytes(text) && Payload(b) == EncodeBytes(b.text);
      BytesDecode(text, b.text, x, y);
    case Flag(flag) => SplitEqual([if flag then 1 else 0], [if b.flag then 1 else 0], x, y);
    case Blob(bytes) =>
      assert Payload(a) == EncodeBytes(bytes) && Payload(b) == EncodeBytes(b.bytes);
      BytesDecode(bytes, b.bytes, x, y);
    case _ => DecodeWord(a, b, x, y);
  }

  lemma DecodeWord(a: Content, b: Content, x: seq<Byte>, y: seq<Byte>)
    requires (a.Integer? && b.Integer?) || (a.Double? && b.Double?)
    requires Payload(a) + x == Payload(b) + y
    ensures a == b && x == y
  {
    if a.Integer? {
      WordDecode(a.number, b.number, x, y);
      SameResidue(a.number, b.number, -TWO_64 / 2);
    } else {
      WordDecode(a.bits, b.bits, x, y);
      SameResidue(a.bits, b.bits, 0);
    }
  }

  lemma SameResidue(a: int, b: int, low: int)
    requires low <= a < low + TWO_64 && low <= b < low + TWO_64 && a % TWO_64 == b % TWO_64
    ensures a == b
  {
    var q, r := a / TWO_64, b / TWO_64;
    assert a - b == TWO_64 * (q - r);
  }

  lemma {:induction false} DecodeItems(a: seq<Content>, b: seq<Content>, x: seq<Byte>, y: seq<Byte>)
    requires |a| == |b| && EncodeItems(a) + x == EncodeItems(b) + y
    requires forall i :: 0 <= i < |a| ==> Sized(a[i]) && Sized(b[i])
    ensures a == b && x == y
    decreases a, 0
  {
    if a == [] {
      SplitEqual([], [], x, y);
    } else {
      Associate(Encode(a[0]), EncodeItems(a[1..]), x);
      Associate(Encode(b[0]), EncodeItems(b[1..]), y);
      Decode(a[0], b[0], EncodeItems(a[1..]) + x, EncodeItems(b[1..]) + y);
      DecodeItems(a[1..], b[1..], x, y);
      assert a == [a[0]] + a[1..] && b == [b[0]] + b[1..];
    }
  }

  lemma {:induction false} DecodeEntries(a: seq<Entry>, b: seq<Entry>, x: seq<Byte>, y: seq<Byte>)
    requires |a| == |b| && EncodeEntries(a) + x == EncodeEntries(b) + y
    requires AllSized(a) && AllSized(b)
    ensures a == b && x == y
    decreases a, 0
  {
    if a == [] {
      SplitEqual([], [], x, y);
    } else {
      EntriesHead(a, x);
      EntriesHead(b, y);
      var restA, restB := EncodeEntries(a[1..]) + x, EncodeEntries(b[1..]) + y;
      BytesDecode(a[0].key, b[0].key, Encode(a[0].content) + restA, Encode(b[0].content) + restB);
      Decode(a[0].content, b[0].content, restA, restB);
      DecodeEntries(a[1..], b[1..], x, y);
      assert a == [a[0]] + a[1..] && b == [b[0]] + b[1..];
    }
  }

  lemma EntriesHead(a: seq<Entry>, x: seq<Byte>)
    requires a != []
    ensures EncodeEntries(a) + x == EncodeBytes(a[0].key) + (Encode(a[0].content) + (EncodeEntries(a[1..]) + x))
  {
    var k, c, r := EncodeBytes(a[0].key), Encode(a[0].content), EncodeEntries(a[1..]);
    Associate(k + c, r, x);
    Associate(k, c, r + x);
  }

  // Attributes, sorted by key without changing the order of those with one key

  /** Byte-wise lexicographic order, as `str` is compared. */
  predicate KeyLess(a: seq<Byte>, b: seq<Byte>) {
    if b == [] then false
    else if a == [] then true
    else a[0] < b[0] || (a[0] == b[0] && KeyLess(a[1..], b[1..]))
  }

  lemma {:induction false} KeyOrderTotal(a: seq<Byte>, b: seq<Byte>)
    ensures !(KeyLess(a, b) && KeyLess(b, a))
    ensures KeyLess(a, b) || KeyLess(b, a) || a == b
    ensures a == b ==> !KeyLess(a, b)
  {
    if a != [] && b != [] {
      KeyOrderTotal(a[1..], b[1..]);
      assert a == [a[0]] + a[1..] && b == [b[0]] + b[1..];
    }
  }

  lemma {:induction false} KeyOrderTransitive(a: seq<Byte>, b: seq<Byte>, c: seq<Byte>)
    requires !KeyLess(b, a) && !KeyLess(c, b)
    ensures !KeyLess(c, a)
  {
    if a != [] && b != [] && c != [] {
      if a[0] == b[0] == c[0] {
        KeyOrderTransitive(a[1..], b[1..], c[1..]);
      }
    }
  }

  ghost predicate Sorted(entries: seq<Entry>) {
    forall i, j :: 0 <= i < j < |entries| ==> !KeyLess(entries[j].key, entries[i].key)
  }

  /** Puts `e` behind every entry whose key is not greater. */
  function Insert(entries: seq<Entry>, e: Entry): seq<Entry> {
    if entries == [] || !KeyLess(e.key, entries[|entries| - 1].key) then entries + [e]
    else Insert(entries[..|entries| - 1], e) + [entries[|entries| - 1]]
  }

  /** A stable sort by key. */
  function SortByKey(entries: seq<Entry>): seq<Entry> {
    if entries == [] then [] else Insert(SortByKey(entries[..|entries| - 1]), entries[|entries| - 1])
  }

  /** The contents of the entries with one key, in order. */
  function WithKey(entries: seq<Entry>, key: seq<Byte>): seq<Content> {
    if entries == [] then []
    else
      var n := |entries| - 1;
      WithKey(entries[..n], key) + (if entries[n].key == key then [entries[n].content] else [])
  }

  lemma WithKeySnoc(entries: seq<Entry>, e: Entry, key: seq<Byte>)
    ensures WithKey(entries + [e], key) == WithKey(entries, key) + (if e.key == key then [e.content] else [])
  {
    assert (entries + [e])[..|entries|] == entries;
  }

  lemma WithKeySkip(entries: seq<Entry>, e: Entry, key: seq<Byte>)
    requires e.key != key
    ensures WithKey(entries + [e], key) == WithKey(entries, key)
  {
    WithKeySnoc(entries, e, key);
  }

  /** Moving an entry past one with another key changes no key's contents. */
  lemma PastOther(entries: seq<Entry>, inserted: seq<Entry>, last: Entry, e: Entry, key: seq<Byte>)
    requires e.key != last.key && WithKey(inserted, key) == WithKey(entries + [e], key)
    ensures WithKey(inserted + [last], key) == WithKey((entries + [last]) + [e], key)
  {
    if e.key == key {
      WithKeySkip(inserted, last, key);
      WithKeySkip(entries, last, key);
      WithKeySnoc(entries, e, key);
      WithKeySnoc(entries + [last], e, key);
    } else {
      WithKeySkip(entries, e, key);
      WithKeySkip(entries + [last], e, key);
      WithKeySnoc(entries, last, key);
      WithKeySnoc(inserted, last, key);
    }
  }

  lemma InsertBeforeLast(entries: seq<Entry>, e: Entry)
    requires entries != [] && KeyLess(e.key, entries[|entries| - 1].key)
    ensures
      var n := |entries| - 1;
      Insert(entries, e) == Insert(entries[..n], e) + [entries[n]] && e.key != entries[n].key
  {
    KeyOrderTotal(e.key, entries[|entries| - 1].key);
  }

  lemma {:induction false} InsertWithKey(entries: seq<Entry>, e: Entry, key: seq<Byte>)
    ensures WithKey(Insert(entries, e), key) == WithKey(entries + [e], key)
  {
    if entries != [] && KeyLess(e.key, entries[|entries| - 1].key) {
      var before, last := entries[..|entries| - 1], entries[|entries| - 1];
      InsertWithKey(before, e, key);
      InsertBeforeLast(entries, e);
      PastOther(before, Insert(before, e), last, e, key);
      assert entries == before + [last];
    } else {
      assert Insert(entries, e) == entries + [e];
    }
  }

  /** Sorting keeps the entries of every key, in their order. */
  lemma {:induction false} SortIsStable(entries: seq<Entry>, key: seq<Byte>)
    ensures WithKey(SortByKey(entries), key) == WithKey(entries, key)
  {
    if entries != [] {
      var n := |entries| - 1;
      SortIsStable(entries[..n], key);
      InsertWithKey(SortByKey(entries[..n]), entries[n], key);
      WithKeySnoc(SortByKey(entries[..n]), entries[n], key);
    }
  }

  lemma {:induction false} InsertSorted(entries: seq<Entry>, e: Entry)
    requires Sorted(entries)
    ensures Sorted(Insert(entries, e)) && |Insert(entries, e)| == |entries| + 1
    ensures forall x :: x in Insert(entries, e) ==> x == e || x in entries
  {
    if entries != [] {
      var n := |entries| - 1;
      if KeyLess(e.key, entries[n].key) {
        InsertSorted(entries[..n], e);
        KeyOrderTotal(e.key, entries[n].key);
        forall x | x in Insert(entries[..n], e)
          ensures !KeyLess(entries[n].key, x.key)
        {
          assert x != e ==> x in entries[..n];
        }
      } else {
        forall i | 0 <= i < n
          ensures !KeyLess(e.key, entries[i].key)
        {
          KeyOrderTransitive(entries[i].key, entries[n].key, e.key);
        }
      }
    }
  }

  lemma {:induction false} SortSorts(entries: seq<Entry>)
    ensures Sorted(SortByKey(entries)) && |SortByKey(entries)| == |entries|
  {
    if entries != [] {
      SortSorts(entries[..|entries| - 1]);
      InsertSorted(SortByKey(entries[..|entries| - 1]), entries[|entries| - 1]);
    }
  }

  /** Sorted entries in which the key of `last` occurs end with a key that is not less. */
  lemma LastKeyGreatest(entries: seq<Entry>, key: seq<Byte>)
    requires Sorted(entries) && WithKey(entries, key) != []
    ensures entries != [] && !KeyLess(entries[|entries| - 1].key, key)
  {
    HasKey(entries, key);
    var i :| 0 <= i < |entries| && entries[i].key == key;
    KeyOrderTotal(key, key);
    if i < |entries| - 1 {
      assert !KeyLess(entries[|entries| - 1].key, entries[i].key);
    }
  }

  lemma {:induction false} HasKey(entries: seq<Entry>, key: seq<Byte>)
    requires WithKey(entries, key) != []
    ensures exists i :: 0 <= i < |entries| && entries[i].key == key
  {
    if entries != [] {
      var n := |entries| - 1;
      if entries[n].key != key {
        HasKey(entries[..n], key);
        var i :| 0 <= i < n && entries[..n][i].key == key;
        assert entries[i].key == key;
      }
    }
  }

  lemma SameLast(a: seq<Entry>, b: seq<Entry>)
    requires a != [] && Sorted(a) && Sorted(b)
    requires forall key :: WithKey(a, key) == WithKey(b, key)
    ensures b != [] && a[|a| - 1] == b[|b| - 1]
  {
    var key := a[|a| - 1].key;
    assert WithKey(a, key) != [];
    LastKeyGreatest(b, key);
    LastKeyGreatest(a, b[|b| - 1].key);
    KeyOrderTotal(key, b[|b| - 1].key);
    LastContent(a);
    LastContent(b);
  }

  /** Sorted entries are determined by what they hold under every key. */
  lemma {:induction false} SortedUnique(a: seq<Entry>, b: seq<Entry>)
    requires Sorted(a) && Sorted(b)
    requires forall key :: WithKey(a, key) == WithKey(b, key)
    ensures a == b
    decreases |a|
  {
    if a == [] {
      if b != [] {
        LastContent(b);
        assert false;
      }
    } else {
      SameLast(a, b);
      var m, n := |a| - 1, |b| - 1;
      forall k
        ensures WithKey(a[..m], k) == WithKey(b[..n], k)
      {
        DropLastWithKey(a, b, k);
      }
      SortedUnique(a[..m], b[..n]);
      assert a == a[..m] + [a[m]] && b == b[..n] + [b[n]];
    }
  }

  lemma LastContent(entries: seq<Entry>)
    requires entries != []
    ensures
      var last := entries[|entries| - 1];
      var under := WithKey(entries, last.key);
      under != [] && under[|under| - 1] == last.content
  {
  }

  lemma DropLastWithKey(a: seq<Entry>, b: seq<Entry>, key: seq<Byte>)
    requires a != [] && b != [] && a[|a| - 1] == b[|b| - 1]
    requires WithKey(a, key) == WithKey(b, key)
    ensures WithKey(a[..|a| - 1], key) == WithKey(b[..|b| - 1], key)
  {
    var last := if a[|a| - 1].key == key then [a[|a| - 1].content] else [];
    var p, q := WithKey(a[..|a| - 1], key), WithKey(b[..|b| - 1], key);
    assert p + last == q + last;
    assert p == (p + last)[..|p + last| - |last|];
    assert q == (q + last)[..|q + last| - |last|];
  }

  /** Every key holds the same contents in the same order. */
  ghost predicate SameUnderKeys(a: seq<Entry>, b: seq<Entry>) {
    forall key :: WithKey(a, key) == WithKey(b, key)
  }

  lemma SortedAlikeSame(a: seq<Entry>, b: seq<Entry>)
    requires SortByKey(a) == SortByKey(b)
    ensures SameUnderKeys(a, b)
  {
    forall key
      ensures WithKey(a, key) == WithKey(b, key)
    {
      SortIsStable(a, key);
      SortIsStable(b, key);
    }
  }

  lemma SameSortedAlike(a: seq<Entry>, b: seq<Entry>)
    requires SameUnderKeys(a, b)
    ensures SortByKey(a) == SortByKey(b)
  {
    SortSorts(a);
    SortSorts(b);
    forall key
      ensures WithKey(SortByKey(a), key) == WithKey(SortByKey(b), key)
    {
      SortIsStable(a, key);
      SortIsStable(b, key);
      assert WithKey(a, key) == WithKey(b, key);
    }
    SortedUnique(SortByKey(a), SortByKey(b));
  }

  // The same sort on the attributes as received

  function InsertAttribute(attributes: seq<KeyValue>, e: KeyValue): seq<KeyValue> {
    if attributes == [] || !KeyLess(e.key, attributes[|attributes| - 1].key) then attributes + [e]
    else InsertAttribute(attributes[..|attributes| - 1], e) + [attributes[|attributes| - 1]]
  }

  function SortAttributes(attributes: seq<KeyValue>): seq<KeyValue> {
    if attributes == [] then []
    else InsertAttribute(SortAttributes(attributes[..|attributes| - 1]), attributes[|attributes| - 1])
  }

  lemma EntriesOfSnoc(attributes: seq<KeyValue>, e: KeyValue)
    ensures EntriesOf(attributes + [e]) == EntriesOf(attributes) + [EntryOf(e)]
  {
  }

  lemma {:induction false} EntriesOfInsert(attributes: seq<KeyValue>, e: KeyValue)
    ensures EntriesOf(InsertAttribute(attributes, e)) == Insert(EntriesOf(attributes), EntryOf(e))
  {
    EntriesOfSnoc(attributes, e);
    if attributes != [] {
      var n := |attributes| - 1;
      assert EntriesOf(attributes[..n]) == EntriesOf(attributes)[..n];
      EntriesOfInsert(attributes[..n], e);
      EntriesOfSnoc(InsertAttribute(attributes[..n], e), attributes[n]);
    }
  }

  lemma {:induction false} EntriesOfSorted(attributes: seq<KeyValue>)
    ensures EntriesOf(SortAttributes(attributes)) == SortByKey(EntriesOf(attributes))
  {
    if attributes != [] {
      var n := |attributes| - 1;
      EntriesOfSorted(attributes[..n]);
      assert EntriesOf(attributes[..n]) == EntriesOf(attributes)[..n];
      EntriesOfInsert(SortAttributes(attributes[..n]), attributes[n]);
    }
  }

  // The whole record

  function Head(r: LogRecord): seq<Byte> {
    Be64(r.timeUnixNano) + Be64(r.observedTimeUnixNano)
  }

  function Tail(attributes: seq<Entry>, body: Content): seq<Byte> {
    Be64(|attributes|) + (EncodeEntries(attributes) + Encode(body))
  }

  /** Both timestamps, the two identifiers, the counted attributes and the body, one after the other. */
  function Parts(
    head: seq<Byte>, traceId: seq<Byte>, spanId: seq<Byte>, attributes: seq<Entry>, body: Content): seq<Byte>
  {
    head + (EncodeBytes(traceId) + (EncodeBytes(spanId) + Tail(attributes, body)))
  }

  /** Everything fed to the hash of a record's identifier. */
  function DigestBytes(r: LogRecord): seq<Byte> {
    Parts(Head(r), r.traceId, r.spanId, EntriesOf(SortAttributes(r.attributes)), ContentOfOptional(r.body))
  }

  ghost predicate SizedRecord(r: LogRecord) {
    && |r.traceId| < TWO_64 && |r.spanId| < TWO_64 && |r.attributes| < TWO_64
    && AllSized(EntriesOf(r.attributes)) && Sized(ContentOfOptional(r.body))
  }

  /** Agreement on everything the identifier should tell apart. */
  ghost predicate SameRecord(a: LogRecord, b: LogRecord) {
    && a.timeUnixNano == b.timeUnixNano
    && a.observedTimeUnixNano == b.observedTimeUnixNano
    && a.traceId == b.traceId
    && a.spanId == b.spanId
    && SameUnderKeys(EntriesOf(a.attributes), EntriesOf(b.attributes))
    && ContentOfOptional(a.body) == ContentOfOptional(b.body)
  }

  lemma {:induction false} SortSized(entries: seq<Entry>)
    requires AllSized(entries)
    ensures AllSized(SortByKey(entries))
  {
    if entries != [] {
      var n := |entries| - 1;
      SortSized(entries[..n]);
      SortSorts(entries[..n]);
      InsertSorted(SortByKey(entries[..n]), entries[n]);
      var sorted := SortByKey(entries);
      forall i | 0 <= i < |sorted|
        ensures |sorted[i].key| < TWO_64 && Sized(sorted[i].content)
      {
        assert sorted[i] in sorted;
      }
    }
  }

  lemma DecodeParts(
    ha: seq<Byte>, ta: seq<Byte>, pa: seq<Byte>, ea: seq<Entry>, ba: Content,
    hb: seq<Byte>, tb: seq<Byte>, pb: seq<Byte>, eb: seq<Entry>, bb: Content)
    requires |ha| == |hb| && |ta| < TWO_64 && |tb| < TWO_64 && |pa| < TWO_64 && |pb| < TWO_64
    requires |ea| < TWO_64 && |eb| < TWO_64 && AllSized(ea) && AllSized(eb) && Sized(ba) && Sized(bb)
    requires Parts(ha, ta, pa, ea, ba) == Parts(hb, tb, pb, eb, bb)
    ensures ha == hb && ta == tb && pa == pb && ea == eb && ba == bb
  {
    DecodeIdentifiers(ha, ta, pa, Tail(ea, ba), hb, tb, pb, Tail(eb, bb));
    DecodeTail(ea, ba, eb, bb);
  }

  lemma DecodeIdentifiers(
    ha: seq<Byte>, ta: seq<Byte>, pa: seq<Byte>, ra: seq<Byte>,
    hb: seq<Byte>, tb: seq<Byte>, pb: seq<Byte>, rb: seq<Byte>)
    requires |ha| == |hb| && |ta| < TWO_64 && |tb| < TWO_64 && |pa| < TWO_64 && |pb| < TWO_64
    requires ha + (EncodeBytes(ta) + (EncodeBytes(pa) + ra)) == hb + (EncodeBytes(tb) + (EncodeBytes(pb) + rb))
    ensures ha == hb && ta == tb && pa == pb && ra == rb
  {
    SplitEqual(ha, hb, EncodeBytes(ta) + (EncodeBytes(pa) + ra), EncodeBytes(tb) + (EncodeBytes(pb) + rb));
    BytesDecode(ta, tb, EncodeBytes(pa) + ra, EncodeBytes(pb) + rb);
    BytesDecode(pa, pb, ra, rb);
  }

  lemma DecodeTail(ea: seq<Entry>, ba: Content, eb: seq<Entry>, bb: Content)
    requires |ea| < TWO_64 && |eb| < TWO_64 && AllSized(ea) && AllSized(eb) && Sized(ba) && Sized(bb)
    requires Tail(ea, ba) == Tail(eb, bb)
    ensures ea == eb && ba == bb
  {
    Associate(Be64(|ea|), EncodeEntries(ea), Encode(ba));
    Associate(Be64(|eb|), EncodeEntries(eb), Encode(bb));
    CountDecode(|ea|, |eb|, EncodeEntries(ea), EncodeEntries(eb), Encode(ba), Encode(bb));
    DecodeEntries(ea, eb, Encode(ba), Encode(bb));
    EncodeInjective(ba, bb);
  }

  lemma EncodeInjective(a: Content, b: Content)
    requires Sized(a) && Sized(b) && Encode(a) == Encode(b)
    ensures a == b
  {
    Decode(a, b, [], []);
  }

  lemma DecodeHead(a: LogRecord, b: LogRecord)
    requires Head(a) == Head(b)
    ensures a.timeUnixNano == b.timeUnixNano && a.observedTimeUnixNano == b.observedTimeUnixNano
  {
    WordDecode(a.timeUnixNano, b.timeUnixNano, Be64(a.observedTimeUnixNano), Be64(b.observedTimeUnixNano));
    Be64Injective(a.observedTimeUnixNano, b.observedTimeUnixNano);
  }

  lemma SortedEntries(r: LogRecord)
    requires SizedRecord(r)
    ensures EntriesOf(SortAttributes(r.attributes)) == SortByKey(EntriesOf(r.attributes))
    ensures AllSized(EntriesOf(SortAttributes(r.attributes)))
    ensures |EntriesOf(SortAttributes(r.attributes))| == |r.attributes|
  {
    EntriesOfSorted(r.attributes);
    SortSorts(EntriesOf(r.attributes));
    SortSized(EntriesOf(r.attributes));
  }

  lemma SameBytesSameRecord(a: LogRecord, b: LogRecord)
    requires SizedRecord(a) && SizedRecord(b) && DigestBytes(a) == DigestBytes(b)
    ensures SameRecord(a, b)
  {
    SortedEntries(a);
    SortedEntries(b);
    DecodeParts(
      Head(a), a.traceId, a.spanId, EntriesOf(SortAttributes(a.attributes)), ContentOfOptional(a.body),
      Head(b), b.traceId, b.spanId, EntriesOf(SortAttributes(b.attributes)), ContentOfOptional(b.body));
    DecodeHead(a, b);
    SortedAlikeSame(EntriesOf(a.attributes), EntriesOf(b.attributes));
  }

  lemma SameRecordSameBytes(a: LogRecord, b: LogRecord)
    requires SizedRecord(a) && SizedRecord(b) && SameRecord(a, b)
    ensures DigestBytes(a) == DigestBytes(b)
  {
    SortedEntries(a);
    SortedEntries(b);
    SameSortedAlike(EntriesOf(a.attributes), EntriesOf(b.attributes));
  }

  /** Two records feed the hash the same bytes exactly when they are the same record. */
  lemma DigestIdentifiesRecord(a: LogRecord, b: LogRecord)
    requires SizedRecord(a) && SizedRecord(b)
    ensures DigestBytes(a) == DigestBytes(b) <==> SameRecord(a, b)
  {
    if DigestBytes(a) == DigestBytes(b) {
      SameBytesSameRecord(a, b);
    }
    if SameRecord(a, b) {
      SameRecordSameBytes(a, b);
    }
  }

  // The hasher is fed exactly these bytes

  class Hasher {
    var fed: seq<Byte>

    constructor ()
      ensures fed == []
    {
      fed := [];
    }

    method Update(bytes: seq<Byte>)
      modifies this
      ensures fed == old(fed) + bytes
    {
      fed := fed + bytes;
    }

    method HashBytes(bytes: seq<Byte>)
      modifies this
      ensures fed == old(fed) + EncodeBytes(bytes)
    {
      Update(Be64(|bytes|));
      Update(bytes);
    }

    method HashValue(value: Option<AnyValue>)
      modifies this
      ensures fed == old(fed) + Encode(ContentOfOptional(value))
      decreases ContentOfOptional(value), 2
    {
      if value.None? || value.value.value.None? {
        Update([0]);
        return;
      }
      match value.value.value.value
      case StringValue(text) => HashTaggedBytes(1, text);
      case BoolValue(flag) => Update([2, if flag then 1 else 0]);
      case IntValue(number) => HashTaggedWord(3, number);
      case DoubleValue(bits) => HashTaggedWord(4, bits);
      case ArrayValue(items) =>
        HashTaggedWord(5, |items|);
        Associate(old(fed), [5] + Be64(|items|), EncodeItems(ContentsOf(items)));
        Associate([5], Be64(|items|), EncodeItems(ContentsOf(items)));
        HashItems(items);
      case KvlistValue(entries) =>
        HashTaggedWord(6, |entries|);
        Associate(old(fed), [6] + Be64(|entries|), EncodeEntries(EntriesOf(entries)));
        Associate([6], Be64(|entries|), EncodeEntries(EntriesOf(entries)));
        HashEntries(entries);
      case BytesValue(bytes) => HashTaggedBytes(7, bytes);
    }

    method HashTaggedBytes(tag: Byte, bytes: seq<Byte>)
      modifies this
      ensures fed == old(fed) + ([tag] + EncodeBytes(bytes))
    {
      Associate(fed, [tag], EncodeBytes(bytes));
      Update([tag]);
      HashBytes(bytes);
    }

    method HashTaggedWord(tag: Byte, word: int)
      modifies this
      ensures fed == old(fed) + ([tag] + Be64(word))
    {
      Associate(fed, [tag], Be64(word));
      Update([tag]);
      Update(Be64(word));
    }

    method HashItems(items: seq<AnyValue>)
      modifies this
      ensures fed == old(fed) + EncodeItems(ContentsOf(items))
      decreases ContentsOf(items), 0
    {
      ghost var target := fed + EncodeItems(ContentsOf(items));
      for i := 0 to |items|
        invariant fed + EncodeItems(ContentsOf(items)[i..]) == target
      {
        Associate(fed, Encode(ContentOf(items[i])), EncodeItems(ContentsOf(items)[i + 1..]));
        assert ContentsOf(items)[i..][1..] == ContentsOf(items)[i + 1..];
        HashValue(Some(items[i]));
      }
    }

    method HashEntries(entries: seq<KeyValue>)
      modifies this
      ensures fed == old(fed) + EncodeEntries(EntriesOf(entries))
      decreases EntriesOf(entries), 0
    {
      ghost var all := EntriesOf(entries);
      ghost var target := fed + EncodeEntries(all);
      for i := 0 to |entries|
        invariant fed + EncodeEntries(all[i..]) == target
      {
        assert all[i..][1..] == all[i + 1..];
        ghost var k, c := EncodeBytes(all[i].key), Encode(all[i].content);
        Associate(fed, k + c, EncodeEntries(all[i + 1..]));
        Associate(fed, k, c);
        HashBytes(entries[i].key);
        HashValue(entries[i].value);
      }
    }

    /** `record_id` up to the point where the digest is taken. */
    method HashRecord(r: LogRecord)
      modifies this
      ensures fed == old(fed) + DigestBytes(r)
    {
      Update(Be64(r.timeUnixNano));
      Update(Be64(r.observedTimeUnixNano));
      Associate(old(fed), Be64(r.timeUnixNano), Be64(r.observedTimeUnixNano));
      assert fed == old(fed) + Head(r);
      ghost var attributes := EntriesOf(SortAttributes(r.attributes));
      ghost var body := ContentOfOptional(r.body);
      HashIdentifiers(r);
      var sorted := SortAttributes(r.attributes);
      HashTail(sorted, r.body);
      ghost var ids := EncodeBytes(r.traceId) + EncodeBytes(r.spanId);
      ghost var tail := Tail(attributes, body);
      Associate(old(fed) + Head(r), ids, tail);
      Associate(EncodeBytes(r.traceId), EncodeBytes(r.spanId), tail);
      Associate(old(fed), Head(r), EncodeBytes(r.traceId) + (EncodeBytes(r.spanId) + tail));
    }

    method HashIdentifiers(r: LogRecord)
      modifies this
      ensures fed == old(fed) + (EncodeBytes(r.traceId) + EncodeBytes(r.spanId))
    {
      Associate(fed, EncodeBytes(r.traceId), EncodeBytes(r.spanId));
      HashBytes(r.traceId);
      HashBytes(r.spanId);
    }

    method HashTail(attributes: seq<KeyValue>, body: Option<AnyValue>)
      modifies this
      ensures
        fed == old(fed) + Tail(EntriesOf(attributes), ContentOfOptional(body))
    {
      ghost var entries, content := EntriesOf(attributes), ContentOfOptional(body);
      Associate(fed, Be64(|entries|), EncodeEntries(entries) + Encode(content));
      Associate(fed + Be64(|entries|), EncodeEntries(entries), Encode(content));
      Update(Be64(|attributes|));
      HashEntries(attributes);
      HashValue(body);
    }
  }
}
