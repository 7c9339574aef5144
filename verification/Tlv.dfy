/** Telemetry records as bytes (core/telemetry/tlv.go, core/telemetry/record.go). */
module Tlv {
  import opened Wrappers
  import opened Sequences
  import opened Arithmetic
  import opened Bytes

  const HEADER_SIZE := 16
  const MAGIC: Bytes := [83, 67, 84, 76]
  const VERSION := 1

  type Tags = map<Bytes, Bytes>

  datatype Record = Record(timestamp: int, eventType: int, tags: Tags, detail: Bytes)

  datatype LogError = Eof | Closed | TruncatedHeader | InvalidMagic | UnsupportedVersion | TruncatedRecord

  // ---- The order of sort.Strings ----------------------------------------

  predicate Less(a: Bytes, b: Bytes) {
    b != [] && (a == [] || a[0] < b[0] || (a[0] == b[0] && Less(a[1..], b[1..])))
  }

  lemma {:induction false} LessTotal(a: Bytes, b: Bytes)
    ensures Less(a, b) || Less(b, a) || a == b
    ensures !(Less(a, b) && Less(b, a))
    decreases |a| + |b|
  {
    if a != [] && b != [] {
      LessTotal(a[1..], b[1..]);
      if a[0] == b[0] && a[1..] == b[1..] {
        assert a == [a[0]] + a[1..] == [b[0]] + b[1..] == b;
      }
    }
  }

  lemma {:induction false} LessTransitive(a: Bytes, b: Bytes, c: Bytes)
    requires Less(a, b) && Less(b, c)
    ensures Less(a, c)
    decreases |a|
  {
    if a != [] && a[0] == b[0] && b[0] == c[0] {
      LessTransitive(a[1..], b[1..], c[1..]);
    }
  }

  /** Less is the order of Go strings: a proper prefix comes first, else the first byte that differs decides. */
  lemma {:induction false} LessIsLexicographic(a: Bytes, b: Bytes)
    ensures Less(a, b) <==> a < b || exists k :: 0 <= k < |a| && k < |b| && a[..k] == b[..k] && a[k] < b[k]
    decreases |a|
  {
    if a == [] {
    } else if b == [] {
      assert !(a < b);
    } else if a[0] != b[0] {
      assert a[..0] == b[..0];
    } else {
      LessIsLexicographic(a[1..], b[1..]);
      assert a == [a[0]] + a[1..] && b == [b[0]] + b[1..];
      if exists k :: 0 <= k < |a| - 1 && k < |b| - 1 && a[1..][..k] == b[1..][..k] && a[1..][k] < b[1..][k] {
        var k :| 0 <= k < |a| - 1 && k < |b| - 1 && a[1..][..k] == b[1..][..k] && a[1..][k] < b[1..][k];
        assert a[..k + 1] == [a[0]] + a[1..][..k] == [b[0]] + b[1..][..k] == b[..k + 1];
        assert a[k + 1] < b[k + 1];
      }
      if exists k :: 0 <= k < |a| && k < |b| && a[..k] == b[..k] && a[k] < b[k] {
        var k :| 0 <= k < |a| && k < |b| && a[..k] == b[..k] && a[k] < b[k];
        assert a[1..][..k - 1] == a[..k][1..] == b[..k][1..] == b[1..][..k - 1];
        assert a[1..][k - 1] < b[1..][k - 1];
      }
      assert a < b <==> a[1..] < b[1..];
    }
  }

  ghost predicate IsLeast(k: Bytes, keys: set<Bytes>) {
    k in keys && forall x :: x in keys && x != k ==> Less(k, x)
  }

  lemma {:induction false} LeastExists(keys: set<Bytes>)
    requires keys != {}
    ensures exists k :: IsLeast(k, keys)
    decreases |keys|
  {
    var a :| a in keys;
    var rest := keys - {a};
    if rest == {} {
      assert keys == {a};
      assert IsLeast(a, keys);
    } else {
      LeastExists(rest);
      var b :| IsLeast(b, rest);
      LessTotal(a, b);
      var k := if Less(a, b) then a else b;
      forall x | x in keys && x != k ensures Less(k, x) {
        if k == a && x != b {
          LessTransitive(a, b, x);
        }
      }
      assert IsLeast(k, keys);
    }
  }

  /** Map keys in the order sort.Strings gives them. */
  ghost function SortedKeys(keys: set<Bytes>): (ks: seq<Bytes>)
    ensures |ks| == |keys|
    ensures forall k :: k in ks <==> k in keys
    decreases |keys|
  {
    if keys == {} then []
    else
      LeastExists(keys);
      var k :| IsLeast(k, keys);
      [k] + SortedKeys(keys - {k})
  }

  ghost predicate Sorted(ks: seq<Bytes>) {
    forall i, j :: 0 <= i < j < |ks| ==> Less(ks[i], ks[j])
  }

  /** The encoding order is fixed by the keys alone. */
  lemma {:induction false} SortedKeysAreSorted(keys: set<Bytes>)
    ensures Sorted(SortedKeys(keys))
    decreases |keys|
  {
    hide Less;
    if keys != {} {
      LeastExists(keys);
      var ks := SortedKeys(keys);
      var k := ks[0];
      assert ks[1..] == SortedKeys(keys - {k});
      SortedKeysAreSorted(keys - {k});
      forall i, j | 0 <= i < j < |ks| ensures Less(ks[i], ks[j]) {
        if i == 0 {
          assert ks[1..][j - 1] == ks[j];
        } else {
          assert ks[1..][i - 1] == ks[i] && ks[1..][j - 1] == ks[j];
        }
      }
    }
  }

  // ---- Encoding ---------------------------------------------------------

  function EncodeTag(k: Bytes, v: Bytes): Bytes {
    LittleEndian(2, |k|) + (k + (LittleEndian(2, |v|) + v))
  }

  function EncodeEntries(tags: Tags, ks: seq<Bytes>): Bytes
    requires forall k :: k in ks ==> k in tags
  {
    if ks == [] then [] else EncodeTag(ks[0], tags[ks[0]]) + EncodeEntries(tags, ks[1..])
  }

  ghost function EncodeTags(tags: Tags): Bytes {
    EncodeEntries(tags, SortedKeys(tags.Keys))
  }

  function Fixed(r: Record, tagsLen: nat): (b: Bytes)
    ensures |b| == 20
  {
    LittleEndian(8, r.timestamp) + (LittleEndian(2, r.eventType) +
      (LittleEndian(2, |r.tags|) + (LittleEndian(4, tagsLen) + LittleEndian(4, |r.detail|))))
  }

  ghost function Encode(r: Record): Bytes {
    Fixed(r, |EncodeTags(r.tags)|) + (EncodeTags(r.tags) + r.detail)
  }

  function Header(createdAt: int): (b: Bytes)
    ensures |b| == HEADER_SIZE
  {
    MAGIC + (LittleEndian(2, VERSION) + (LittleEndian(2, 0) + LittleEndian(8, createdAt)))
  }

  /** The Go types of the two numbers: int64 and uint16. */
  predicate Typed(r: Record) {
    -0x8000_0000_0000_0000 <= r.timestamp < 0x8000_0000_0000_0000 && 0 <= r.eventType < 0x1_0000
  }

  ghost predicate ShortTags(tags: Tags) {
    forall k :: k in tags ==> |k| < 0x1_0000 && |tags[k]| < 0x1_0000
  }

  /** Every number and string fits its field; only the count of tags is left open. */
  ghost predicate SizeBounded(r: Record) {
    && Typed(r)
    && ShortTags(r.tags)
    && |EncodeTags(r.tags)| < 0x1_0000_0000
    && |r.detail| < 0x1_0000_0000
  }

  /** Everything fits the widths of the format. */
  ghost predicate Bounded(r: Record) {
    SizeBounded(r) && |r.tags| < 0x1_0000
  }

  // ---- Decoding, as a function of the bytes and a position --------------

  function Uint(s: Bytes, i: nat, n: nat): nat
    requires i + n <= |s|
  {
    LittleEndianValue(s[i..i + n])
  }

  function Int64(v: int): int {
    if v >= 0x8000_0000_0000_0000 then v - 0x1_0000_0000_0000_0000 else v
  }

  /** decodeTags: `count` entries of `data` from `offset` on, added to `acc`. */
  function DecodeEntries(data: Bytes, offset: nat, count: nat, acc: Tags): Option<Tags>
    requires offset <= |data|
    decreases count
  {
    if count == 0 then Some(acc)
    else if offset + 2 > |data| then None
    else
      var keyEnd := offset + 2 + Uint(data, offset, 2);
      if keyEnd + 2 > |data| then None
      else
        var valEnd := keyEnd + 2 + Uint(data, keyEnd, 2);
        if valEnd > |data| then None
        else DecodeEntries(data, valEnd, count - 1, acc[data[offset + 2..keyEnd] := data[keyEnd + 2..valEnd]])
  }

  /** The outcome of DecodeRecord and where it leaves the reader. */
  datatype Decoded = Decoded(result: Result<Record, LogError>, next: nat)

  /** A tag area of length zero is not decoded at all. */
  function TagsAt(s: Bytes, i: nat, count: nat, tagsLen: nat): Option<Tags>
    requires i + tagsLen <= |s|
  {
    if tagsLen == 0 then Some(map[]) else DecodeEntries(s[i..i + tagsLen], 0, count, map[])
  }

  function DecodeAt(s: Bytes, i: nat): (d: Decoded)
    requires i <= |s|
    ensures i <= d.next <= |s|
    ensures d.result.Ok? ==> i + 20 <= d.next
  {
    if i == |s| then Decoded(Err(Eof), i)
    else if i + 20 > |s| then Decoded(Err(TruncatedRecord), |s|)
    else
      var count, tagsLen, detailLen := Uint(s, i + 10, 2), Uint(s, i + 12, 4), Uint(s, i + 16, 4);
      var mid := i + 20 + tagsLen;
      if mid > |s| then Decoded(Err(TruncatedRecord), |s|)
      else
        match TagsAt(s, i + 20, count, tagsLen)
        case None => Decoded(Err(TruncatedRecord), mid)
        case Some(tags) =>
          var end := mid + detailLen;
          if end > |s| then Decoded(Err(TruncatedRecord), |s|)
          else Decoded(Ok(Record(Int64(Uint(s, i, 8)), Uint(s, i + 8, 2), tags, s[mid..end])), end)
  }

  function HeaderAt(s: Bytes, i: nat): (r: Result<int, LogError>)
    requires i <= |s|
  {
    if i + HEADER_SIZE > |s| then Err(TruncatedHeader)
    else if s[i..i + 4] != MAGIC then Err(InvalidMagic)
    else if Uint(s, i + 4, 2) != VERSION then Err(UnsupportedVersion)
    else Ok(Int64(Uint(s, i + 8, 8)))
  }

  // ---- Decoding undoes encoding -----------------------------------------

  lemma UintReads(s: Bytes, i: nat, n: nat, x: int)
    requires At(s, i, LittleEndian(n, x))
    ensures i + n <= |s| && Uint(s, i, n) == x % Pow(256, n)
  {
    LittleEndianReads(n, x);
  }

  function Restrict(tags: Tags, ks: seq<Bytes>): Tags
    requires forall k :: k in ks ==> k in tags
  {
    map k | k in ks :: tags[k]
  }

  lemma TagReads(data: Bytes, offset: nat, count: nat, acc: Tags, k: Bytes, v: Bytes)
    requires |k| < 0x1_0000 && |v| < 0x1_0000 && count > 0
    requires At(data, offset, EncodeTag(k, v))
    ensures var next := offset + |EncodeTag(k, v)|;
            && next <= |data|
            && DecodeEntries(data, offset, count, acc) == DecodeEntries(data, next, count - 1, acc[k := v])
  {
    hide At;
    hide LittleEndian;
    hide LittleEndianValue;
    hide Pow;
    Limits();
    var keyEnd := offset + 2 + |k|;
    AtSplit(data, offset, LittleEndian(2, |k|), k + (LittleEndian(2, |v|) + v));
    AtSplit(data, offset + 2, k, LittleEndian(2, |v|) + v);
    AtSplit(data, keyEnd, LittleEndian(2, |v|), v);
    UintReads(data, offset, 2, |k|);
    UintReads(data, keyEnd, 2, |v|);
    AtSlice(data, offset + 2, k);
    AtSlice(data, keyEnd + 2, v);
  }

  lemma RestrictCons(tags: Tags, ks: seq<Bytes>, acc: Tags)
    requires ks != [] && forall k :: k in ks ==> k in tags
    ensures acc[ks[0] := tags[ks[0]]] + Restrict(tags, ks[1..]) == acc + Restrict(tags, ks)
  {
    assert ks == [ks[0]] + ks[1..];
  }

  ghost predicate ShortEntries(tags: Tags, ks: seq<Bytes>) {
    forall k :: k in ks ==> k in tags && |k| < 0x1_0000 && |tags[k]| < 0x1_0000
  }

  lemma NoEntries(data: Bytes, offset: nat, acc: Tags)
    requires offset <= |data|
    ensures DecodeEntries(data, offset, 0, acc) == Some(acc)
  {
  }

  lemma {:induction false} EntriesRead(tags: Tags, ks: seq<Bytes>, count: nat, data: Bytes, offset: nat, acc: Tags)
    requires count <= |ks| && ShortEntries(tags, ks)
    requires At(data, offset, EncodeEntries(tags, ks))
    ensures offset <= |data|
    ensures DecodeEntries(data, offset, count, acc) == Some(acc + Restrict(tags, ks[..count]))
    decreases ks
  {
    hide At;
    hide EncodeTag;
    hide DecodeEntries;
    AtSlice(data, offset, EncodeEntries(tags, ks));
    if count == 0 {
      NoEntries(data, offset, acc);
      assert acc + Restrict(tags, ks[..count]) == acc;
    } else {
      var k, rest := ks[0], ks[1..];
      AtSplit(data, offset, EncodeTag(k, tags[k]), EncodeEntries(tags, rest));
      TagReads(data, offset, count, acc, k, tags[k]);
      EntriesRead(tags, rest, count - 1, data, offset + |EncodeTag(k, tags[k])|, acc[k := tags[k]]);
      assert ks[..count][1..] == rest[..count - 1];
      RestrictCons(tags, ks[..count], acc);
    }
  }

  /** The tags that survive a 16-bit tag count. */
  ghost function KeptTags(tags: Tags): Tags {
    Restrict(tags, SortedKeys(tags.Keys)[..|tags| % 0x1_0000])
  }

  lemma TagsRead(tags: Tags, s: Bytes, i: nat)
    requires ShortTags(tags) && At(s, i, EncodeTags(tags))
    ensures i + |EncodeTags(tags)| <= |s|
    ensures TagsAt(s, i, |tags| % 0x1_0000, |EncodeTags(tags)|) == Some(KeptTags(tags))
  {
    var ks, data, count := SortedKeys(tags.Keys), EncodeTags(tags), |tags| % 0x1_0000;
    if data == [] {
      assert KeptTags(tags) == map[];
    } else {
      AtSlice(s, i, data);
      AtWhole(data);
      EntriesRead(tags, ks, count, data, 0, map[]);
      assert map[] + Restrict(tags, ks[..count]) == Restrict(tags, ks[..count]);
    }
  }

  lemma {:induction false} KeptCount(tags: Tags, ks: seq<Bytes>)
    requires Sorted(ks) && forall k :: k in ks ==> k in tags
    ensures |Restrict(tags, ks)| == |ks|
    decreases ks
  {
    hide Less;
    if ks == [] {
      assert Restrict(tags, ks) == map[];
    } else {
      var n := |ks| - 1;
      var k := ks[n];
      KeptCount(tags, ks[..n]);
      if k in ks[..n] {
        var i :| 0 <= i < n && ks[i] == k;
        LessTotal(ks[i], ks[n]);
      }
      assert ks == ks[..n] + [k];
      assert Restrict(tags, ks) == Restrict(tags, ks[..n])[k := tags[k]];
    }
  }

  /** All tags survive exactly when their number fits 16 bits. */
  lemma KeepsAllIffCounted(tags: Tags)
    ensures KeptTags(tags) == tags <==> |tags| < 0x1_0000
  {
    var ks, n := SortedKeys(tags.Keys), |tags| % 0x1_0000;
    if |tags| < 0x1_0000 {
      assert ks[..n] == ks;
    } else {
      SortedKeysAreSorted(tags.Keys);
      KeptCount(tags, ks[..n]);
    }
  }

  /** The fixed part of a record gives back the four numbers that steer the decoder. */
  lemma FixedReads(s: Bytes, i: nat, r: Record, tagsLen: nat)
    requires At(s, i, Fixed(r, tagsLen)) && tagsLen < 0x1_0000_0000
    requires |r.detail| < 0x1_0000_0000 && 0 <= r.eventType < 0x1_0000
    requires -0x8000_0000_0000_0000 <= r.timestamp < 0x8000_0000_0000_0000
    ensures i + 20 <= |s|
    ensures Int64(Uint(s, i, 8)) == r.timestamp && Uint(s, i + 8, 2) == r.eventType
    ensures Uint(s, i + 10, 2) == |r.tags| % 0x1_0000
    ensures Uint(s, i + 12, 4) == tagsLen && Uint(s, i + 16, 4) == |r.detail|
  {
    hide At;
    hide Uint;
    hide Pow;
    hide LittleEndian;
    Limits();
    var e, d := LittleEndian(4, tagsLen), LittleEndian(4, |r.detail|);
    var c, b := LittleEndian(2, |r.tags|), LittleEndian(2, r.eventType);
    AtSplit(s, i, LittleEndian(8, r.timestamp), b + (c + (e + d)));
    AtSplit(s, i + 8, b, c + (e + d));
    AtSplit(s, i + 10, c, e + d);
    AtSplit(s, i + 12, e, d);
    UintReads(s, i, 8, r.timestamp);
    UintReads(s, i + 8, 2, r.eventType);
    UintReads(s, i + 10, 2, |r.tags|);
    UintReads(s, i + 12, 4, tagsLen);
    UintReads(s, i + 16, 4, |r.detail|);
  }

  /** What a record decodes to, whatever follows it. */
  lemma RecordDecodes(s: Bytes, i: nat, r: Record)
    requires SizeBounded(r) && At(s, i, Encode(r))
    ensures i + |Encode(r)| <= |s|
    ensures DecodeAt(s, i) == Decoded(Ok(r.(tags := KeptTags(r.tags))), i + |Encode(r)|)
  {
    hide At;
    hide Uint;
    hide TagsAt;
    hide KeptTags;
    var tags := EncodeTags(r.tags);
    AtSplit(s, i, Fixed(r, |tags|), tags + r.detail);
    AtSplit(s, i + 20, tags, r.detail);
    FixedReads(s, i, r, |tags|);
    TagsRead(r.tags, s, i + 20);
    AtSlice(s, i + 20 + |tags|, r.detail);
  }

  lemma UintBound(s: Bytes, i: nat, n: nat)
    requires i + n <= |s|
    ensures Uint(s, i, n) < Pow(256, n)
  {
    LittleEndianBound(s[i..i + n]);
  }

  /** Decoding never yields more entries than counted, nor a key or value beyond the width of its length. */
  lemma {:induction false} EntriesAreShort(data: Bytes, offset: nat, count: nat, acc: Tags)
    requires offset <= |data| && ShortTags(acc) && DecodeEntries(data, offset, count, acc).Some?
    ensures var tags := DecodeEntries(data, offset, count, acc).value;
            ShortTags(tags) && |tags| <= |acc| + count
    decreases count
  {
    hide Uint;
    if count > 0 {
      Limits();
      var keyEnd := offset + 2 + Uint(data, offset, 2);
      var valEnd := keyEnd + 2 + Uint(data, keyEnd, 2);
      UintBound(data, offset, 2);
      UintBound(data, keyEnd, 2);
      var k, v := data[offset + 2..keyEnd], data[keyEnd + 2..valEnd];
      UpdateSize(acc, k, v);
      EntriesAreShort(data, valEnd, count - 1, acc[k := v]);
    }
  }

  lemma UpdateSize(m: Tags, k: Bytes, v: Bytes)
    ensures |m[k := v]| <= |m| + 1
  {
    assert m[k := v].Keys == m.Keys + {k};
  }

  /** The lengths that a successful decoding has read. */
  lemma DecodedLengths(s: Bytes, i: nat, r: Record, next: nat)
    requires i <= |s| && DecodeAt(s, i) == Decoded(Ok(r), next)
    ensures i + 20 <= |s|
    ensures var tagsLen := Uint(s, i + 12, 4);
            && i + 20 + tagsLen <= |s|
            && TagsAt(s, i + 20, Uint(s, i + 10, 2), tagsLen) == Some(r.tags)
            && |r.detail| == Uint(s, i + 16, 4) && next == i + 20 + tagsLen + |r.detail|
  {
    hide Uint;
    hide TagsAt;
  }

  lemma TagsAreShort(s: Bytes, i: nat, count: nat, tagsLen: nat)
    requires i + tagsLen <= |s| && TagsAt(s, i, count, tagsLen).Some?
    ensures var tags := TagsAt(s, i, count, tagsLen).value; ShortTags(tags) && |tags| <= count
  {
    hide DecodeEntries;
    if tagsLen > 0 {
      EntriesAreShort(s[i..i + tagsLen], 0, count, map[]);
    }
  }

  /** Whatever decodes is within the widths of the format. */
  lemma DecodedIsBounded(s: Bytes, i: nat, r: Record)
    requires Typed(r) && i <= |s| && DecodeAt(s, i) == Decoded(Ok(r), i + |Encode(r)|)
    ensures Bounded(r)
  {
    hide DecodeAt;
    hide TagsAt;
    hide Uint;
    hide EncodeTags;
    hide Fixed;
    hide ShortTags;
    hide Pow;
    Limits();
    DecodedLengths(s, i, r, i + |Encode(r)|);
    UintBound(s, i + 10, 2);
    UintBound(s, i + 12, 4);
    UintBound(s, i + 16, 4);
    TagsAreShort(s, i + 20, Uint(s, i + 10, 2), Uint(s, i + 12, 4));
  }

  /** A record of the Go types decodes to itself exactly when its strings, areas and number of tags fit the
      widths of the format. */
  lemma RoundTripIffBounded(s: Bytes, i: nat, r: Record)
    requires Typed(r) && At(s, i, Encode(r))
    ensures i <= |s|
    ensures DecodeAt(s, i) == Decoded(Ok(r), i + |Encode(r)|) <==> Bounded(r)
  {
    AtSlice(s, i, Encode(r));
    if Bounded(r) {
      RecordDecodes(s, i, r);
      KeepsAllIffCounted(r.tags);
    } else if DecodeAt(s, i) == Decoded(Ok(r), i + |Encode(r)|) {
      DecodedIsBounded(s, i, r);
    }
  }

  /** A record cut anywhere strictly inside is reported as truncated, and everything is consumed. */
  lemma CutRecordTruncates(s: Bytes, i: nat, k: nat, r: Record)
    requires Bounded(r) && At(s, i, Encode(r)) && i < k < i + |Encode(r)|
    ensures k <= |s| && DecodeAt(s[..k], i) == Decoded(Err(TruncatedRecord), k)
  {
    hide At;
    hide Uint;
    hide TagsAt;
    hide KeptTags;
    AtSlice(s, i, Encode(r));
    var tags, cut := EncodeTags(r.tags), s[..k];
    AtSplit(s, i, Fixed(r, |tags|), tags + r.detail);
    AtSplit(s, i + 20, tags, r.detail);
    if k >= i + 20 {
      AtPrefix(s, k, i, Fixed(r, |tags|));
      FixedReads(cut, i, r, |tags|);
      if k >= i + 20 + |tags| {
        AtPrefix(s, k, i + 20, tags);
        TagsRead(r.tags, cut, i + 20);
      }
    }
  }

  lemma HeaderReads(s: Bytes, createdAt: int)
    requires At(s, 0, Header(createdAt))
    requires -0x8000_0000_0000_0000 <= createdAt < 0x8000_0000_0000_0000
    ensures HeaderAt(s, 0) == Ok(createdAt)
  {
    hide At;
    hide Uint;
    Limits();
    var v, f, t := LittleEndian(2, VERSION), LittleEndian(2, 0), LittleEndian(8, createdAt);
    AtSplit(s, 0, MAGIC, v + (f + t));
    AtSplit(s, 4, v, f + t);
    AtSplit(s, 6, f, t);
    AtSlice(s, 0, MAGIC);
    UintReads(s, 4, 2, VERSION);
    UintReads(s, 8, 8, createdAt);
  }

  // ---- The bytes in the file --------------------------------------------

  lemma TwoBytes(x: int)
    ensures LittleEndian(2, x) == [x % 256, x / 256 % 256]
  {
    assert LittleEndian(2, x) == [x % 256] + LittleEndian(1, x / 256);
    assert LittleEndian(1, x / 256) == [x / 256 % 256] + LittleEndian(0, x / 256 / 256);
  }

  lemma TwoByteUint(s: Bytes, i: nat)
    requires i + 2 <= |s|
    ensures Uint(s, i, 2) == s[i] as int + 256 * s[i + 1] as int
  {
    var b := s[i..i + 2];
    assert LittleEndianValue(b[1..]) == b[1] + 256 * LittleEndianValue(b[1..][1..]);
  }

  /** Sixteen bytes are a header exactly when they begin with SCTL and version 1, least significant byte first; four
      other bytes in front are the magic error, and behind the right four another version is the version error. */
  lemma HeaderAcceptedIff(s: Bytes)
    requires |s| >= 16
    ensures var magic, version := s[0] == 83 && s[1] == 67 && s[2] == 84 && s[3] == 76, s[4] == 1 && s[5] == 0;
            && (HeaderAt(s, 0).Ok? <==> magic && version)
            && (HeaderAt(s, 0) == Err(InvalidMagic) <==> !magic)
            && (HeaderAt(s, 0) == Err(UnsupportedVersion) <==> magic && !version)
  {
    hide Uint;
    TwoByteUint(s, 4);
    assert s[0..4] == [s[0], s[1], s[2], s[3]];
  }

  /** Fewer bytes than sixteen are the truncation error, whatever they are. */
  lemma ShortHeaderTruncates(s: Bytes)
    ensures HeaderAt(s, 0) == Err(TruncatedHeader) <==> |s| < 16
  {
    hide Uint;
  }

  /** The sixteen bytes of a header: magic, version, two bytes of flags and the digits of the creation time. */
  lemma HeaderLayout(createdAt: int)
    ensures var b := Header(createdAt);
            && b[..8] == [83, 67, 84, 76, 1, 0, 0, 0]
            && forall k :: 8 <= k < 16 ==> b[k] == createdAt / Pow(256, k - 8) % 256
  {
    TwoBytes(1);
    TwoBytes(0);
    hide LittleEndian;
    hide Pow;
    var b := MAGIC + (LittleEndian(2, VERSION) + (LittleEndian(2, 0) + LittleEndian(8, createdAt)));
    forall k | 8 <= k < 16 ensures b[k] == createdAt / Pow(256, k - 8) % 256 {
      LittleEndianAt(8, createdAt, k - 8);
    }
  }

  /** The fixed part of a record, offset by offset. */
  lemma FixedLayout(r: Record, tagsLen: nat)
    ensures var b := Fixed(r, tagsLen);
            && (forall k :: 0 <= k < 8 ==> b[k] == r.timestamp / Pow(256, k) % 256)
            && b[8] == r.eventType % 256 && b[9] == r.eventType / 256 % 256
            && b[10] == |r.tags| % 256 && b[11] == |r.tags| / 256 % 256
            && (forall k :: 12 <= k < 16 ==> b[k] == tagsLen / Pow(256, k - 12) % 256)
            && (forall k :: 16 <= k < 20 ==> b[k] == |r.detail| / Pow(256, k - 16) % 256)
  {
    TwoBytes(r.eventType);
    TwoBytes(|r.tags|);
    hide LittleEndian;
    hide Pow;
    var d := |r.detail|;
    var b := LittleEndian(8, r.timestamp) + (LittleEndian(2, r.eventType) +
      (LittleEndian(2, |r.tags|) + (LittleEndian(4, tagsLen) + LittleEndian(4, d))));
    forall k | 0 <= k < 8 ensures b[k] == r.timestamp / Pow(256, k) % 256 {
      LittleEndianAt(8, r.timestamp, k);
    }
    forall k | 12 <= k < 16 ensures b[k] == tagsLen / Pow(256, k - 12) % 256 {
      LittleEndianAt(4, tagsLen, k - 12);
    }
    forall k | 16 <= k < 20 ensures b[k] == d / Pow(256, k - 16) % 256 {
      LittleEndianAt(4, d, k - 16);
    }
  }

  /** A whole record: the fixed part, then the tags, then the detail; a tag is its key and its value, each behind its
      length in two bytes. */
  lemma RecordLayout(r: Record, key: Bytes, val: Bytes)
    ensures var b, t := Encode(r), EncodeTags(r.tags);
            && |b| == 20 + |t| + |r.detail|
            && b[..20] == Fixed(r, |t|) && b[20..20 + |t|] == t && b[20 + |t|..] == r.detail
    ensures EncodeTag(key, val) ==
            [|key| % 256, |key| / 256 % 256] + key + [|val| % 256, |val| / 256 % 256] + val
  {
    hide Fixed;
    hide EncodeTags;
    TwoBytes(|key|);
    TwoBytes(|val|);
    hide LittleEndian;
  }
}
