/** Whole telemetry logs (core/telemetry/writer.go, reader.go, tlv.go). */
module TelemetryLog {
  import opened Wrappers
  import opened Sequences
  import opened Bytes
  import opened Tlv

  // ---- Reading a log until the first error ------------------------------

  ghost function EncodeAll(rs: seq<Record>): Bytes {
    if rs == [] then [] else Encode(rs[0]) + EncodeAll(rs[1..])
  }

  ghost predicate AllBounded(rs: seq<Record>) {
    rs != [] ==> Bounded(rs[0]) && AllBounded(rs[1..])
  }

  /** The records from position `i` on, and the error that ends the reading. */
  function ReadFrom(s: Bytes, i: nat): (seq<Record>, LogError)
    requires i <= |s|
    decreases |s| - i
  {
    var d := DecodeAt(s, i);
    match d.result
    case Err(e) => ([], e)
    case Ok(r) =>
      var (rs, e) := ReadFrom(s, d.next);
      ([r] + rs, e)
  }

  /** Reading a log from its first byte. */
  function ReadLog(s: Bytes): (seq<Record>, LogError) {
    match HeaderAt(s, 0)
    case Err(e) => ([], e)
    case Ok(_) => ReadFrom(s, HEADER_SIZE)
  }

  /** How many of the records lie wholly within the first `n` bytes of their encoding. */
  ghost function WholeWithin(rs: seq<Record>, n: nat): (m: nat)
    ensures m <= |rs|
  {
    if rs == [] || |Encode(rs[0])| > n then 0 else 1 + WholeWithin(rs[1..], n - |Encode(rs[0])|)
  }

  /** WholeWithin is the largest such number. */
  lemma {:induction false} WholeWithinIsLargest(rs: seq<Record>, n: nat, m: nat)
    requires m <= |rs|
    ensures |EncodeAll(rs[..m])| <= n <==> m <= WholeWithin(rs, n)
    decreases rs
  {
    hide Encode;
    if m > 0 {
      assert rs[..m][1..] == rs[1..][..m - 1];
      if |Encode(rs[0])| <= n {
        WholeWithinIsLargest(rs[1..], n - |Encode(rs[0])|, m - 1);
      }
    }
  }

  /** What a log cut `n` bytes into its records reads as. */
  ghost function CutOutcome(rs: seq<Record>, n: nat): (seq<Record>, LogError) {
    var m := WholeWithin(rs, n);
    (rs[..m], if |EncodeAll(rs[..m])| == n then Eof else TruncatedRecord)
  }

  lemma CutOutcomeStep(rs: seq<Record>, n: nat)
    requires rs != [] && |Encode(rs[0])| <= n
    ensures var (rest, e) := CutOutcome(rs[1..], n - |Encode(rs[0])|);
            CutOutcome(rs, n) == ([rs[0]] + rest, e)
  {
    hide Encode;
    var m := WholeWithin(rs[1..], n - |Encode(rs[0])|);
    assert rs[..m + 1] == [rs[0]] + rs[1..][..m];
    assert rs[..m + 1][1..] == rs[1..][..m];
  }

  /** A first record that decodes leaves the reader at the second one. */
  lemma BoundedReads(s: Bytes, i: nat, r: Record)
    requires Bounded(r) && At(s, i, Encode(r))
    ensures i + |Encode(r)| <= |s| && DecodeAt(s, i) == Decoded(Ok(r), i + |Encode(r)|)
  {
    RecordDecodes(s, i, r);
    KeepsAllIffCounted(r.tags);
  }

  lemma {:induction false} CutRecords(s: Bytes, k: nat, i: nat, rs: seq<Record>)
    requires AllBounded(rs) && At(s, i, EncodeAll(rs)) && i <= k <= i + |EncodeAll(rs)|
    ensures k <= |s| && ReadFrom(s[..k], i) == CutOutcome(rs, k - i)
    decreases rs
  {
    hide At;
    hide Encode;
    hide DecodeAt;
    hide Bounded;
    AtSlice(s, i, EncodeAll(rs));
    if k == i {
      DecodeAtEnd(s[..k]);
      RecordsAreNotEmpty(rs);
    } else {
      var n := |Encode(rs[0])|;
      AtSplit(s, i, Encode(rs[0]), EncodeAll(rs[1..]));
      if k < i + n {
        CutRecordTruncates(s, i, k, rs[0]);
      } else {
        hide EncodeAll;
        AtPrefix(s, k, i, Encode(rs[0]));
        BoundedReads(s[..k], i, rs[0]);
        CutRecords(s, k, i + n, rs[1..]);
        CutOutcomeStep(rs, k - i);
      }
    }
  }

  lemma DecodeAtEnd(s: Bytes)
    ensures DecodeAt(s, |s|) == Decoded(Err(Eof), |s|)
  {
  }

  lemma RecordsAreNotEmpty(rs: seq<Record>)
    ensures CutOutcome(rs, 0) == ([], Eof)
  {
  }

  ghost function Log(createdAt: int, rs: seq<Record>): Bytes {
    Header(createdAt) + EncodeAll(rs)
  }

  /** What any prefix of a log reads as. */
  lemma AnyPrefixReads(createdAt: int, rs: seq<Record>, k: nat)
    requires -0x8000_0000_0000_0000 <= createdAt < 0x8000_0000_0000_0000
    requires AllBounded(rs) && k <= |Log(createdAt, rs)|
    ensures k < HEADER_SIZE ==> ReadLog(Log(createdAt, rs)[..k]) == ([], TruncatedHeader)
    ensures k >= HEADER_SIZE ==>
              ReadLog(Log(createdAt, rs)[..k]) == CutOutcome(rs, k - HEADER_SIZE)
  {
    hide At;
    hide HeaderAt;
    hide EncodeAll;
    hide CutOutcome;
    hide ReadFrom;
    hide Header;
    var s := Log(createdAt, rs);
    if k >= HEADER_SIZE {
      AtWhole(s);
      AtSplit(s, 0, Header(createdAt), EncodeAll(rs));
      AtPrefix(s, k, 0, Header(createdAt));
      HeaderReads(s[..k], createdAt);
      CutRecords(s, k, HEADER_SIZE, rs);
    } else {
      ShortHeader(s[..k]);
    }
  }

  lemma ShortHeader(s: Bytes)
    requires |s| < HEADER_SIZE
    ensures HeaderAt(s, 0) == Err(TruncatedHeader)
  {
  }

  lemma WholeCut(rs: seq<Record>)
    ensures CutOutcome(rs, |EncodeAll(rs)|) == (rs, Eof)
  {
    hide EncodeAll;
    assert rs[..|rs|] == rs;
    WholeWithinIsLargest(rs, |EncodeAll(rs)|, |rs|);
  }

  /** Uncut, the log reads back whole and ends cleanly. */
  lemma LogRoundTrip(createdAt: int, rs: seq<Record>)
    requires -0x8000_0000_0000_0000 <= createdAt < 0x8000_0000_0000_0000
    requires AllBounded(rs)
    ensures ReadLog(Log(createdAt, rs)) == (rs, Eof)
  {
    hide EncodeAll;
    hide ReadLog;
    hide Header;
    hide CutOutcome;
    var s := Log(createdAt, rs);
    AnyPrefixReads(createdAt, rs, |s|);
    assert s[..|s|] == s;
    WholeCut(rs);
  }

  // ---- Streams ----------------------------------------------------------

  /** The bytes written so far. */
  class Sink {
    var out: Bytes

    constructor ()
      ensures out == []
    {
      out := [];
    }

    method Write(b: Bytes)
      modifies this
      ensures out == old(out) + b
    {
      out := out + b;
    }
  }

  datatype Chunk = Full(bytes: Bytes) | Short | Empty

  /** A finite source of bytes. */
  class Source {
    const data: Bytes
    var pos: nat

    constructor (data: Bytes)
      ensures this.data == data && pos == 0
    {
      this.data := data;
      pos := 0;
    }

    /** io.ReadFull: all `n` bytes, or whatever is left is consumed. */
    method ReadFull(n: nat) returns (chunk: Chunk)
      requires pos <= |data|
      modifies this
      ensures pos == if old(pos) + n <= |data| then old(pos) + n else |data|
      ensures chunk == if old(pos) + n <= |data| then Full(data[old(pos)..pos])
                       else if old(pos) == |data| then Empty else Short
    {
      if pos + n <= |data| {
        chunk := Full(data[pos..pos + n]);
        pos := pos + n;
      } else {
        chunk := if pos == |data| then Empty else Short;
        pos := |data|;
      }
    }
  }

  // ---- tlv.go -----------------------------------------------------------

  method WriteHeader(w: Sink, createdAt: int)
    modifies w
    ensures w.out == old(w.out) + Header(createdAt)
  {
    w.Write(Header(createdAt));
  }

  lemma SubSlice(s: Bytes, i: nat, n: nat, lo: nat, hi: nat)
    requires i + n <= |s| && lo <= hi <= n
    ensures s[i..i + n][lo..hi] == s[i + lo..i + hi]
  {
    var a, b := s[i..i + n][lo..hi], s[i + lo..i + hi];
    assert |a| == |b| && forall k :: 0 <= k < |a| ==> a[k] == b[k];
  }

  method ReadHeader(r: Source) returns (hdr: Result<int, LogError>)
    requires r.pos <= |r.data|
    modifies r
    ensures hdr == HeaderAt(r.data, old(r.pos))
    ensures r.pos <= |r.data|
    ensures hdr.Ok? ==> r.pos == old(r.pos) + HEADER_SIZE
  {
    ghost var i := r.pos;
    var chunk := r.ReadFull(HEADER_SIZE);
    if !chunk.Full? {
      return Err(TruncatedHeader);
    }
    var b := chunk.bytes;
    SubSlice(r.data, i, HEADER_SIZE, 0, 4);
    SubSlice(r.data, i, HEADER_SIZE, 4, 6);
    SubSlice(r.data, i, HEADER_SIZE, 8, 16);
    if b[..4] != MAGIC {
      return Err(InvalidMagic);
    }
    if LittleEndianValue(b[4..6]) != VERSION {
      return Err(UnsupportedVersion);
    }
    return Ok(Int64(LittleEndianValue(b[8..16])));
  }

  /** copy and PutUint16: `p` laid over `buf` from `offset` on. */
  method CopyInto(buf: array<byte>, offset: nat, p: Bytes)
    requires offset + |p| <= buf.Length
    modifies buf
    ensures buf[..offset + |p|] == old(buf[..offset]) + p
  {
    for i := 0 to |p|
      invariant buf[..offset + i] == old(buf[..offset]) + p[..i]
    {
      buf[offset + i] := p[i];
      assert buf[..offset + i + 1] == buf[..offset + i] + [p[i]];
    }
  }

  method Least(keys: set<Bytes>) returns (k: Bytes)
    requires keys != {}
    ensures IsLeast(k, keys)
  {
    k :| k in keys;
    var todo := keys - {k};
    while todo != {}
      invariant todo <= keys && k in keys - todo
      invariant forall y :: y in keys - todo && y != k ==> Less(k, y)
      decreases |todo|
    {
      var x :| x in todo;
      LessTotal(k, x);
      if Less(x, k) {
        forall y | y in keys - todo && y != k ensures Less(x, y) {
          LessTransitive(x, k, y);
        }
        k := x;
      }
      todo := todo - {x};
    }
  }

  lemma SortedHead(keys: set<Bytes>, k: Bytes)
    requires IsLeast(k, keys)
    ensures SortedKeys(keys) == [k] + SortedKeys(keys - {k})
  {
    LeastExists(keys);
    var head := SortedKeys(keys)[0];
    LessTotal(k, head);
  }

  /** sort.Strings over the keys of a map. */
  method SortStrings(keys: set<Bytes>) returns (ks: seq<Bytes>)
    ensures ks == SortedKeys(keys)
  {
    hide IsLeast;
    hide SortedKeys;
    ks := [];
    var rest := keys;
    while rest != {}
      invariant ks + SortedKeys(rest) == SortedKeys(keys)
      decreases |rest|
    {
      var k := Least(rest);
      SortedHead(rest, k);
      assert ks + ([k] + SortedKeys(rest - {k})) == (ks + [k]) + SortedKeys(rest - {k});
      ks := ks + [k];
      rest := rest - {k};
    }
  }

  method TagsSize(tags: Tags, keys: seq<Bytes>) returns (size: nat)
    requires forall k :: k in keys ==> k in tags
    ensures size == |EncodeEntries(tags, keys)|
  {
    size := 0;
    assert keys[0..] == keys;
    for i := 0 to |keys|
      invariant size + |EncodeEntries(tags, keys[i..])| == |EncodeEntries(tags, keys)|
    {
      assert keys[i..][1..] == keys[i + 1..];
      size := size + 2 + |keys[i]| + 2 + |tags[keys[i]]|;
    }
  }

  method EncodedTags(tags: Tags) returns (buf: array<byte>, count: nat)
    ensures fresh(buf) && buf[..] == EncodeTags(tags) && count == |tags| % 0x1_0000
  {
    var keys := SortStrings(tags.Keys);
    count := |keys| % 0x1_0000;
    var size := TagsSize(tags, keys);
    buf := new byte[size];
    FillTags(buf, tags, keys);
  }

  method FillTags(buf: array<byte>, tags: Tags, keys: seq<Bytes>)
    requires forall k :: k in keys ==> k in tags
    requires buf.Length == |EncodeEntries(tags, keys)|
    modifies buf
    ensures buf[..] == EncodeEntries(tags, keys)
  {
    hide EncodeTag;
    var offset: nat := 0;
    assert keys[0..] == keys;
    ghost var all := EncodeEntries(tags, keys);
    for i := 0 to |keys|
      invariant offset <= buf.Length
      invariant buf[..offset] + EncodeEntries(tags, keys[i..]) == all
    {
      var entry := EncodeTag(keys[i], tags[keys[i]]);
      ghost var done, rest := buf[..offset], EncodeEntries(tags, keys[i + 1..]);
      assert keys[i..][1..] == keys[i + 1..];
      assert all == (done + entry) + rest by {
        assert done + (entry + rest) == (done + entry) + rest;
      }
      CopyInto(buf, offset, entry);
      offset := offset + |entry|;
    }
    assert buf[..offset] + [] == buf[..offset];
    assert offset == buf.Length;
  }

  method EncodeRecord(w: Sink, rec: Record)
    modifies w
    ensures w.out == old(w.out) + Encode(rec)
  {
    var tagsData, tagCount := EncodedTags(rec.tags);
    LowBytes(|rec.tags|);
    var tags := tagsData[..];
    ghost var start := w.out;
    w.Write(LittleEndian(8, rec.timestamp));
    w.Write(LittleEndian(2, rec.eventType));
    w.Write(LittleEndian(2, tagCount));
    w.Write(LittleEndian(4, |tags|));
    w.Write(LittleEndian(4, |rec.detail|));
    FixedInOrder(start, rec, |tags|);
    ghost var fixed := w.out;
    if |tags| > 0 {
      w.Write(tags);
    }
    assert w.out == fixed + tags;
    if |rec.detail| > 0 {
      w.Write(rec.detail);
    }
    assert w.out == fixed + tags + rec.detail;
    RecordInOrder(start, rec, tags);
  }

  lemma FixedInOrder(start: Bytes, r: Record, tagsLen: nat)
    ensures start + LittleEndian(8, r.timestamp) + LittleEndian(2, r.eventType) + LittleEndian(2, |r.tags|)
            + LittleEndian(4, tagsLen) + LittleEndian(4, |r.detail|) == start + Fixed(r, tagsLen)
  {
    hide LittleEndian;
  }

  lemma RecordInOrder(start: Bytes, r: Record, tags: Bytes)
    requires tags == EncodeTags(r.tags)
    ensures start + Fixed(r, |tags|) + tags + r.detail == start + Encode(r)
  {
    hide Fixed;
    hide EncodeTags;
  }

  /** Truncating to 16 bits first changes nothing. */
  lemma LowBytes(x: nat)
    ensures LittleEndian(2, x % 0x1_0000) == LittleEndian(2, x)
  {
    var y := x % 0x1_0000;
    assert y % 256 == x % 256 && y / 256 % 256 == x / 256 % 256;
    assert LittleEndian(1, y / 256) == [y / 256 % 256] && LittleEndian(1, x / 256) == [x / 256 % 256];
  }

  method DecodedTags(data: Bytes, count: nat) returns (tags: Option<Tags>)
    ensures tags == DecodeEntries(data, 0, count, map[])
  {
    var found: Tags := map[];
    var offset := 0;
    for i := 0 to count
      invariant 0 <= offset <= |data|
      invariant DecodeEntries(data, 0, count, map[]) == DecodeEntries(data, offset, count - i, found)
    {
      if offset + 2 > |data| {
        return None;
      }
      var keyLen := LittleEndianValue(data[offset..offset + 2]);
      offset := offset + 2;
      if offset + keyLen > |data| {
        return None;
      }
      var key := data[offset..offset + keyLen];
      offset := offset + keyLen;
      if offset + 2 > |data| {
        return None;
      }
      var valLen := LittleEndianValue(data[offset..offset + 2]);
      offset := offset + 2;
      if offset + valLen > |data| {
        return None;
      }
      found := found[key := data[offset..offset + valLen]];
      offset := offset + valLen;
    }
    return Some(found);
  }

  method DecodeRecord(r: Source) returns (rec: Result<Record, LogError>)
    requires r.pos <= |r.data|
    modifies r
    ensures rec == DecodeAt(r.data, old(r.pos)).result
    ensures r.pos == DecodeAt(r.data, old(r.pos)).next
  {
    ghost var i := r.pos;
    var timestamp := r.ReadFull(8);
    if timestamp.Empty? {
      return Err(Eof);
    } else if timestamp.Short? {
      return Err(TruncatedRecord);
    }
    var eventType := r.ReadFull(2);
    if !eventType.Full? {
      return Err(TruncatedRecord);
    }
    var tagCount := r.ReadFull(2);
    if !tagCount.Full? {
      return Err(TruncatedRecord);
    }
    var tagsLen := r.ReadFull(4);
    if !tagsLen.Full? {
      return Err(TruncatedRecord);
    }
    var detailLen := r.ReadFull(4);
    if !detailLen.Full? {
      return Err(TruncatedRecord);
    }
    rec := DecodeBody(r, i, Int64(LittleEndianValue(timestamp.bytes)), LittleEndianValue(eventType.bytes),
                      LittleEndianValue(tagCount.bytes), LittleEndianValue(tagsLen.bytes),
                      LittleEndianValue(detailLen.bytes));
  }

  /** The variable-length part of DecodeRecord. */
  method DecodeBody(r: Source, ghost i: nat, timestamp: int, eventType: nat, count: nat, tagsLen: nat, detailLen: nat)
    returns (rec: Result<Record, LogError>)
    requires r.pos == i + 20 <= |r.data|
    requires timestamp == Int64(Uint(r.data, i, 8)) && eventType == Uint(r.data, i + 8, 2)
    requires count == Uint(r.data, i + 10, 2) && tagsLen == Uint(r.data, i + 12, 4)
    requires detailLen == Uint(r.data, i + 16, 4)
    modifies r
    ensures Decoded(rec, r.pos) == DecodeAt(r.data, i)
  {
    var tags := map[];
    if tagsLen > 0 {
      var chunk := r.ReadFull(tagsLen);
      if !chunk.Full? {
        return Err(TruncatedRecord);
      }
      var found := DecodedTags(chunk.bytes, count);
      if found.None? {
        return Err(TruncatedRecord);
      }
      tags := found.value;
    }
    var detail := [];
    if detailLen > 0 {
      var chunk := r.ReadFull(detailLen);
      if !chunk.Full? {
        return Err(TruncatedRecord);
      }
      detail := chunk.bytes;
    }
    assert detail == r.data[i + 20 + tagsLen..i + 20 + tagsLen + detailLen];
    return Ok(Record(timestamp, eventType, tags, detail));
  }

  // ---- writer.go --------------------------------------------------------

  class Writer {
    const w: Sink
    var headerDone: bool
    var closed: bool
    ghost var createdAt: int
    ghost var written: seq<Record>

    /** Everything in the sink is one log of the records written so far. */
    ghost predicate Valid()
      reads this, w
    {
      && w.out == (if headerDone then Log(createdAt, written) else [])
      && (!headerDone ==> written == [])
    }

    constructor (w: Sink)
      requires w.out == []
      ensures Valid() && this.w == w && !headerDone && !closed && written == []
    {
      this.w := w;
      headerDone, closed := false, false;
      createdAt, written := 0, [];
    }

    /** `now` is the clock at the call. */
    method Write(rec: Record, now: int) returns (status: Result<(), LogError>)
      requires Valid()
      modifies this, w
      ensures Valid() && closed == old(closed)
      ensures status == if closed then Err(Closed) else Ok(())
      ensures written == if closed then old(written) else old(written) + [rec]
      ensures createdAt == if closed || old(headerDone) then old(createdAt) else now
      ensures closed ==> headerDone == old(headerDone)
    {
      if closed {
        return Err(Closed);
      }
      hide Log;
      hide Encode;
      if !headerDone {
        WriteHeader(w, now);
        headerDone := true;
        createdAt := now;
      }
      LogAppend(createdAt, written, rec);
      EncodeRecord(w, rec);
      written := written + [rec];
      return Ok(());
    }

    method Close()
      modifies this`closed
      ensures closed
    {
      closed := true;
    }
  }

  lemma LogAppend(createdAt: int, rs: seq<Record>, r: Record)
    ensures Log(createdAt, []) == Header(createdAt)
    ensures Log(createdAt, rs + [r]) == Log(createdAt, rs) + Encode(r)
  {
    hide Encode;
    hide Header;
    EncodeAllAppend(rs, r);
    assert Header(createdAt) + (EncodeAll(rs) + Encode(r)) == (Header(createdAt) + EncodeAll(rs)) + Encode(r);
  }

  lemma {:induction false} EncodeAllAppend(rs: seq<Record>, r: Record)
    ensures EncodeAll(rs + [r]) == EncodeAll(rs) + Encode(r)
  {
    hide Encode;
    if rs == [] {
      assert rs + [r] == [r];
      assert EncodeAll([r]) == Encode(r) + EncodeAll([]);
    } else {
      EncodeAllAppend(rs[1..], r);
      assert (rs + [r])[1..] == rs[1..] + [r];
      assert (rs + [r])[0] == rs[0];
      assert Encode(rs[0]) + (EncodeAll(rs[1..]) + Encode(r)) == (Encode(rs[0]) + EncodeAll(rs[1..])) + Encode(r);
    }
  }

  // ---- reader.go --------------------------------------------------------

  class Reader {
    const r: Source
    var headerDone: bool
    var header: int
    var closed: bool

    constructor (r: Source)
      ensures this.r == r && !headerDone && !closed
    {
      this.r := r;
      headerDone, header, closed := false, 0, false;
    }

    /** What reading on from here would return, and the error it would end with. */
    ghost function Rest(): (seq<Record>, LogError)
      reads this, r
      requires r.pos <= |r.data|
    {
      if closed then ([], Closed)
      else if headerDone then ReadFrom(r.data, r.pos)
      else
        match HeaderAt(r.data, r.pos)
        case Err(e) => ([], e)
        case Ok(_) => ReadFrom(r.data, r.pos + HEADER_SIZE)
    }

    method Next() returns (rec: Result<Record, LogError>)
      requires r.pos <= |r.data|
      modifies this, r
      ensures r.pos <= |r.data| && closed == old(closed)
      ensures rec.Err? ==> old(Rest()) == ([], rec.error)
      ensures rec.Ok? ==> old(Rest()) == ([rec.value] + Rest().0, Rest().1)
      ensures rec.Ok? ==> headerDone && old(r.pos) < r.pos
    {
      if closed {
        return Err(Closed);
      }
      if !headerDone {
        var hdr := ReadHeader(r);
        if hdr.Err? {
          return Err(hdr.error);
        }
        header := hdr.value;
        headerDone := true;
      }
      rec := DecodeRecord(r);
    }

    method Close()
      modifies this`closed
      ensures closed
    {
      closed := true;
    }
  }

  /** The loop of `scrutineer log dump`: all records up to the first error. */
  method Dump(data: Bytes) returns (records: seq<Record>, ending: LogError)
    ensures (records, ending) == ReadLog(data)
  {
    var source := new Source(data);
    var reader := new Reader(source);
    records := [];
    assert [] + ReadLog(data).0 == ReadLog(data).0;
    while true
      invariant reader.r == source && source.data == data && source.pos <= |data|
      invariant ReadLog(data) == (records + reader.Rest().0, reader.Rest().1)
      decreases |data| - source.pos
    {
      ghost var before := reader.Rest();
      var rec := reader.Next();
      if rec.Err? {
        assert records + [] == records;
        return records, rec.error;
      }
      assert records + ([rec.value] + reader.Rest().0) == (records + [rec.value]) + reader.Rest().0;
      records := records + [rec.value];
    }
  }
}
