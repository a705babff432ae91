// The ZIP central directory of an Android package (crates/wroid-android/src/lib.rs), laid out as
// in PKWARE's APPNOTE.TXT, sections 4.3.12 and 4.3.16. Whether a name is UTF-8 without control
// characters is a parameter.

module Archive {
  import opened Wrappers

  const EOCD_SIGNATURE := 0x0605_4b50
  const CENTRAL_ENTRY_SIGNATURE := 0x0201_4b50
  const EOCD_BYTES := 22
  const ENTRY_BYTES := 46
  const MAX_ZIP_COMMENT := 0xFFFF
  const MAX_CENTRAL_DIRECTORY_BYTES := 64 * 1024 * 1024
  const MAX_ARCHIVE_ENTRIES := 100_000
  const MAX_ENTRY_NAME_BYTES := 4096
  const U16_MAX := 0xFFFF

  datatype Fault =
    | TooSmall | NoEndRecord | MultiDisk | Zip64 | SafetyLimits
    | Truncated | UnexpectedRecord | NameLimits | Zip64Entry | NulInName | NotText
    | CountMismatch(expected: nat, found: nat)

  datatype ArchiveEntry = ArchiveEntry(name: seq<Byte>, encrypted: bool, directory: bool)

  // ---------------------------------------------------------------------------------------
  // Little-endian integers

  function ReadU16(bytes: seq<Byte>, offset: nat): (v: nat)
    requires offset + 2 <= |bytes|
    ensures v <= U16_MAX
  {
    var low: int, high: int := bytes[offset], bytes[offset + 1];
    low + 256 * high
  }

  function ReadU32(bytes: seq<Byte>, offset: nat): (v: nat)
    requires offset + 4 <= |bytes|
    ensures v <= U32_MAX
  {
    ReadU16(bytes, offset) + 0x1_0000 * ReadU16(bytes, offset + 2)
  }

  lemma ReadWithin(bytes: seq<Byte>, n: nat, offset: nat)
    requires n <= |bytes|
    ensures offset + 2 <= n ==> ReadU16(bytes[..n], offset) == ReadU16(bytes, offset)
    ensures offset + 4 <= n ==> ReadU32(bytes[..n], offset) == ReadU32(bytes, offset)
  {
  }

  function U16Bytes(v: nat): (bytes: seq<Byte>)
    requires v <= U16_MAX
    ensures |bytes| == 2 && ReadU16(bytes, 0) == v
  {
    [v % 256, v / 256]
  }

  function U32Bytes(v: nat): (bytes: seq<Byte>)
    requires v <= U32_MAX
    ensures |bytes| == 4 && ReadU32(bytes, 0) == v
  {
    U16Bytes(v % 0x1_0000) + U16Bytes(v / 0x1_0000)
  }

  // The lowest byte comes first, and the signatures are the letters P and K and two numbers.
  lemma LittleEndian(bytes: seq<Byte>, offset: nat)
    requires offset + 4 <= |bytes|
    ensures var a: int, b: int, c: int, d: int :=
              bytes[offset], bytes[offset + 1], bytes[offset + 2], bytes[offset + 3];
            && ReadU16(bytes, offset) == a + 256 * b
            && ReadU32(bytes, offset) == a + 256 * b + 65_536 * c + 16_777_216 * d
            && (ReadU32(bytes, offset) == CENTRAL_ENTRY_SIGNATURE <==>
                a == 'P' as int && b == 'K' as int && c == 1 && d == 2)
            && (ReadU32(bytes, offset) == EOCD_SIGNATURE <==> a == 'P' as int && b == 'K' as int && c == 5 && d == 6)
  {
  }

  // ---------------------------------------------------------------------------------------
  // Records

  datatype Record = Record(header: seq<Byte>, name: seq<Byte>, extra: seq<Byte>, comment: seq<Byte>) {

    predicate Shaped() {
      && |header| == ENTRY_BYTES
      && ReadU16(header, 28) == |name| && ReadU16(header, 30) == |extra| && ReadU16(header, 32) == |comment|
    }

    // What the parser insists on.
    predicate WellFormed(readable: seq<Byte> -> bool) {
      && Shaped()
      && ReadU32(header, 0) == CENTRAL_ENTRY_SIGNATURE
      && 0 < |name| <= MAX_ENTRY_NAME_BYTES
      && ReadU16(header, 34) == 0
      && ReadU32(header, 20) != U32_MAX && ReadU32(header, 24) != U32_MAX && ReadU32(header, 42) != U32_MAX
      && 0 !in name && readable(name)
    }

    function Bytes(): seq<Byte> { header + name + extra + comment }

    function Entry(): ArchiveEntry
      requires Shaped() && name != []
    {
      ArchiveEntry(name, ReadU16(header, 8) % 2 == 1, name[|name| - 1] == '/' as int)
    }
  }

  function Encode(records: seq<Record>): seq<Byte> {
    if records == [] then [] else records[0].Bytes() + Encode(records[1..])
  }

  ghost predicate AllWellFormed(records: seq<Record>, readable: seq<Byte> -> bool) {
    forall i | 0 <= i < |records| :: records[i].WellFormed(readable)
  }

  function Entries(records: seq<Record>): (entries: seq<ArchiveEntry>)
    requires forall i | 0 <= i < |records| :: records[i].Shaped() && records[i].name != []
    ensures |entries| == |records|
    ensures forall i | 0 <= i < |records| :: entries[i] == records[i].Entry()
  {
    seq(|records|, i requires 0 <= i < |records| => records[i].Entry())
  }

  // A header with the given fields, in the order of section 4.3.12.
  datatype Fields = Fields(versionMade: U16, versionNeeded: U16, flags: U16, compression: U16, time: U16, date: U16,
                           crc: U32, compressed: U32, uncompressed: U32, nameLength: U16, extraLength: U16,
                           commentLength: U16, diskStart: U16, internal: U16, external: U32, localOffset: U32)

  function HeaderBytes(f: Fields): (bytes: seq<Byte>)
    ensures |bytes| == ENTRY_BYTES
  {
    U32Bytes(CENTRAL_ENTRY_SIGNATURE) + U16Bytes(f.versionMade) + U16Bytes(f.versionNeeded) + U16Bytes(f.flags)
    + U16Bytes(f.compression) + U16Bytes(f.time) + U16Bytes(f.date) + U32Bytes(f.crc) + U32Bytes(f.compressed)
    + U32Bytes(f.uncompressed) + U16Bytes(f.nameLength) + U16Bytes(f.extraLength) + U16Bytes(f.commentLength)
    + U16Bytes(f.diskStart) + U16Bytes(f.internal) + U32Bytes(f.external) + U32Bytes(f.localOffset)
  }

  // The offsets the parser reads are where the fields are.
  lemma HeaderReadsBack(f: Fields)
    ensures var h := HeaderBytes(f);
            && ReadU32(h, 0) == CENTRAL_ENTRY_SIGNATURE && ReadU16(h, 8) == f.flags
            && ReadU32(h, 20) == f.compressed && ReadU32(h, 24) == f.uncompressed
            && ReadU16(h, 28) == f.nameLength && ReadU16(h, 30) == f.extraLength && ReadU16(h, 32) == f.commentLength
            && ReadU16(h, 34) == f.diskStart && ReadU32(h, 42) == f.localOffset
  {
  }

  // In the words of section 4.3.12: which records are accepted, and what is kept of them.
  lemma RecordMeans(f: Fields, name: seq<Byte>, extra: seq<Byte>, comment: seq<Byte>, readable: seq<Byte> -> bool)
    ensures var record := Record(HeaderBytes(f), name, extra, comment);
            && (record.WellFormed(readable) <==>
                  && f.nameLength == |name| && f.extraLength == |extra| && f.commentLength == |comment|
                  && 1 <= |name| <= 4096 && 0 !in name && readable(name) && f.diskStart == 0
                  && f.compressed < 0xFFFF_FFFF && f.uncompressed < 0xFFFF_FFFF && f.localOffset < 0xFFFF_FFFF)
            && (record.WellFormed(readable) ==>
                  && record.Entry().name == name
                  && (record.Entry().encrypted <==> f.flags % 2 == 1)
                  && (record.Entry().directory <==> name[|name| - 1] == '/' as int))
  {
    hide ReadU16, ReadU32, HeaderBytes;
    HeaderReadsBack(f);
  }

  // ---------------------------------------------------------------------------------------
  // parse_central_entries

  // The record at the front of the bytes, if the parser accepts one.
  function Front(bytes: seq<Byte>, readable: seq<Byte> -> bool): (r: Result<Record, Fault>)
    ensures r.Ok? ==> r.value.WellFormed(readable) && r.value.Bytes() <= bytes
  {
    if |bytes| < ENTRY_BYTES then Err(Truncated)
    else if ReadU32(bytes, 0) != CENTRAL_ENTRY_SIGNATURE then Err(UnexpectedRecord)
    else
      var nameLength, extraLength, commentLength := ReadU16(bytes, 28), ReadU16(bytes, 30), ReadU16(bytes, 32);
      if nameLength == 0 || nameLength > MAX_ENTRY_NAME_BYTES then Err(NameLimits)
      else if ReadU16(bytes, 34) != 0 || ReadU32(bytes, 20) == U32_MAX || ReadU32(bytes, 24) == U32_MAX
              || ReadU32(bytes, 42) == U32_MAX then Err(Zip64Entry)
      else
        var nameEnd := ENTRY_BYTES + nameLength;
        var extraEnd := nameEnd + extraLength;
        var end := extraEnd + commentLength;
        if end > |bytes| then Err(Truncated)
        else if 0 in bytes[ENTRY_BYTES..nameEnd] then Err(NulInName)
        else if !readable(bytes[ENTRY_BYTES..nameEnd]) then Err(NotText)
        else
          var record := Record(bytes[..ENTRY_BYTES], bytes[ENTRY_BYTES..nameEnd], bytes[nameEnd..extraEnd],
                               bytes[extraEnd..end]);
          assert record.Bytes() == bytes[..end];
          Ok(record)
  }

  function ParseFrom(bytes: seq<Byte>, count: nat, readable: seq<Byte> -> bool): (r: Result<seq<Record>, Fault>)
    ensures r.Ok? ==> AllWellFormed(r.value, readable) && Encode(r.value) == bytes
    ensures r.Ok? ==> r.value == [] || count + |r.value| <= MAX_ARCHIVE_ENTRIES
    decreases |bytes|
  {
    if bytes == [] then Ok([])
    else if count >= MAX_ARCHIVE_ENTRIES then Err(Truncated)
    else
      match Front(bytes, readable)
      case Err(fault) => Err(fault)
      case Ok(record) =>
        match ParseFrom(bytes[|record.Bytes()|..], count + 1, readable)
        case Err(fault) => Err(fault)
        case Ok(rest) => Ok([record] + rest)
  }

  lemma FrontOfRecord(record: Record, rest: seq<Byte>, readable: seq<Byte> -> bool)
    requires record.WellFormed(readable)
    ensures Front(record.Bytes() + rest, readable) == Ok(record)
  {
    var bytes := record.Bytes() + rest;
    hide ReadU16, ReadU32;
    assert bytes[..ENTRY_BYTES] == record.header;
    ReadWithin(bytes, ENTRY_BYTES, 0);
    ReadWithin(bytes, ENTRY_BYTES, 20);
    ReadWithin(bytes, ENTRY_BYTES, 24);
    ReadWithin(bytes, ENTRY_BYTES, 28);
    ReadWithin(bytes, ENTRY_BYTES, 30);
    ReadWithin(bytes, ENTRY_BYTES, 32);
    ReadWithin(bytes, ENTRY_BYTES, 34);
    ReadWithin(bytes, ENTRY_BYTES, 42);
    var nameEnd := ENTRY_BYTES + |record.name|;
    var extraEnd := nameEnd + |record.extra|;
    assert bytes[ENTRY_BYTES..nameEnd] == record.name;
    assert bytes[nameEnd..extraEnd] == record.extra;
    assert bytes[extraEnd..extraEnd + |record.comment|] == record.comment;
  }

  // In the words of section 4.3.12: what is refused, and why.
  lemma FaultMeans(f: Fields, tail: seq<Byte>, readable: seq<Byte> -> bool)
    ensures var read := Front(HeaderBytes(f) + tail, readable);
            if f.nameLength == 0 || f.nameLength > 4096 then read == Err(NameLimits)
            else if f.diskStart != 0 || f.compressed == 0xFFFF_FFFF || f.uncompressed == 0xFFFF_FFFF
                    || f.localOffset == 0xFFFF_FFFF then read == Err(Zip64Entry)
            else if |tail| < f.nameLength + f.extraLength + f.commentLength then read == Err(Truncated)
            else if 0 in tail[..f.nameLength] then read == Err(NulInName)
            else if !readable(tail[..f.nameLength]) then read == Err(NotText)
            else read.Ok? && read.value.name == tail[..f.nameLength]
  {
    var bytes := HeaderBytes(f) + tail;
    FieldsReadBack(f, tail);
    hide ReadU16, ReadU32, HeaderBytes;
    if |tail| >= f.nameLength + f.extraLength + f.commentLength {
      var nameEnd := ENTRY_BYTES + f.nameLength;
      assert bytes[ENTRY_BYTES..nameEnd] == tail[..f.nameLength];
    }
  }

  lemma FieldsReadBack(f: Fields, tail: seq<Byte>)
    ensures var bytes := HeaderBytes(f) + tail;
            && |bytes| >= ENTRY_BYTES && ReadU32(bytes, 0) == CENTRAL_ENTRY_SIGNATURE
            && ReadU32(bytes, 20) == f.compressed && ReadU32(bytes, 24) == f.uncompressed
            && ReadU16(bytes, 28) == f.nameLength && ReadU16(bytes, 30) == f.extraLength
            && ReadU16(bytes, 32) == f.commentLength && ReadU16(bytes, 34) == f.diskStart
            && ReadU32(bytes, 42) == f.localOffset
  {
    var bytes, header := HeaderBytes(f) + tail, HeaderBytes(f);
    HeaderReadsBack(f);
    hide ReadU16, ReadU32, HeaderBytes;
    assert bytes[..ENTRY_BYTES] == header;
    ReadWithin(bytes, ENTRY_BYTES, 0);
    ReadWithin(bytes, ENTRY_BYTES, 20);
    ReadWithin(bytes, ENTRY_BYTES, 24);
    ReadWithin(bytes, ENTRY_BYTES, 28);
    ReadWithin(bytes, ENTRY_BYTES, 30);
    ReadWithin(bytes, ENTRY_BYTES, 32);
    ReadWithin(bytes, ENTRY_BYTES, 34);
    ReadWithin(bytes, ENTRY_BYTES, 42);
  }

  // And bytes that do not begin with the letters P and K, 1 and 2, are no header.
  lemma HeaderOrNot(bytes: seq<Byte>, readable: seq<Byte> -> bool)
    ensures |bytes| < 46 ==> Front(bytes, readable) == Err(Truncated)
    ensures |bytes| >= 46 ==>
              (Front(bytes, readable) == Err(UnexpectedRecord) <==>
                    bytes[0] != 'P' as int || bytes[1] != 'K' as int || bytes[2] != 1 || bytes[3] != 2)
  {
    if |bytes| >= 46 {
      LittleEndian(bytes, 0);
    }
  }

  // The parser inverts the encoder ...
  lemma {:induction false} ParseInvertsEncode(records: seq<Record>, count: nat, readable: seq<Byte> -> bool)
    requires AllWellFormed(records, readable) && count + |records| <= MAX_ARCHIVE_ENTRIES
    ensures ParseFrom(Encode(records), count, readable) == Ok(records)
    decreases |records|
  {
    if records != [] {
      var bytes, rest := Encode(records), Encode(records[1..]);
      FrontOfRecord(records[0], rest, readable);
      assert bytes[|records[0].Bytes()|..] == rest;
      ParseInvertsEncode(records[1..], count + 1, readable);
      assert records == [records[0]] + records[1..];
    }
  }

  // ... stops at the first record it does not accept, with that record's fault ...
  lemma {:induction false} FirstFaultDecides(records: seq<Record>, rest: seq<Byte>, count: nat,
                                             readable: seq<Byte> -> bool)
    requires AllWellFormed(records, readable) && rest != []
    requires count + |records| >= MAX_ARCHIVE_ENTRIES >= count || Front(rest, readable).Err?
    ensures ParseFrom(Encode(records) + rest, count, readable)
            == Err(if count + |records| >= MAX_ARCHIVE_ENTRIES then Truncated else Front(rest, readable).error)
    decreases |records|
  {
    hide Front, Record.WellFormed, Record.Bytes;
    if records == [] {
      assert Encode(records) + rest == rest;
    } else if count < MAX_ARCHIVE_ENTRIES {
      var bytes, after := Encode(records) + rest, Encode(records[1..]) + rest;
      assert bytes == records[0].Bytes() + after;
      FrontOfRecord(records[0], after, readable);
      assert bytes[|records[0].Bytes()|..] == after;
      FirstFaultDecides(records[1..], rest, count + 1, readable);
    }
  }

  // ... and accepts nothing else: it succeeds exactly on the concatenation of n well-formed
  // records, n at most 100000, and returns them in order.
  lemma AcceptedIffEncoded(bytes: seq<Byte>, n: nat, readable: seq<Byte> -> bool)
    ensures (ParseFrom(bytes, 0, readable).Ok? && |ParseFrom(bytes, 0, readable).value| == n) <==>
            (n <= MAX_ARCHIVE_ENTRIES && exists records ::
                  |records| == n && AllWellFormed(records, readable) && Encode(records) == bytes)
  {
    if ParseFrom(bytes, 0, readable).Ok? && |ParseFrom(bytes, 0, readable).value| == n {
      var records := ParseFrom(bytes, 0, readable).value;
      assert |records| == n && AllWellFormed(records, readable) && Encode(records) == bytes;
    }
    if n <= MAX_ARCHIVE_ENTRIES {
      forall records | |records| == n && AllWellFormed(records, readable) && Encode(records) == bytes
        ensures ParseFrom(bytes, 0, readable) == Ok(records)
      {
        ParseInvertsEncode(records, 0, readable);
      }
    }
  }

  // So no byte string encodes two different directories.
  lemma EncodeIsInjective(one: seq<Record>, other: seq<Record>, readable: seq<Byte> -> bool)
    requires AllWellFormed(one, readable) && AllWellFormed(other, readable)
    requires |one| <= MAX_ARCHIVE_ENTRIES && |other| <= MAX_ARCHIVE_ENTRIES
    requires Encode(one) == Encode(other)
    ensures one == other
  {
    ParseInvertsEncode(one, 0, readable);
    ParseInvertsEncode(other, 0, readable);
  }

  function Parsed(bytes: seq<Byte>, expected: nat, readable: seq<Byte> -> bool): (r: Result<seq<ArchiveEntry>, Fault>)
  {
    match ParseFrom(bytes, 0, readable)
    case Err(fault) => Err(fault)
    case Ok(records) => if |records| == expected then Ok(Entries(records)) else Err(CountMismatch(expected, |records|))
  }

  method ReadEntry(bytes: seq<Byte>, offset: nat, readable: seq<Byte> -> bool)
    returns (entry: Result<ArchiveEntry, Fault>, length: nat)
    requires offset < |bytes|
    ensures entry.Ok? <==> Front(bytes[offset..], readable).Ok?
    ensures entry.Err? ==> Front(bytes[offset..], readable) == Err(entry.error)
    ensures entry.Ok? ==>
              && entry.value == Front(bytes[offset..], readable).value.Entry()
              && length == |Front(bytes[offset..], readable).value.Bytes()| && offset + length <= |bytes|
  {
    hide ReadU16, ReadU32;
    length := 0;
    if offset + ENTRY_BYTES > |bytes| {
      return Err(Truncated), length;
    }
    var rest := bytes[offset..];
    if ReadU32(rest, 0) != CENTRAL_ENTRY_SIGNATURE {
      return Err(UnexpectedRecord), length;
    }
    var flags, compressed, uncompressed := ReadU16(rest, 8), ReadU32(rest, 20), ReadU32(rest, 24);
    var nameLength, extraLength, commentLength := ReadU16(rest, 28), ReadU16(rest, 30), ReadU16(rest, 32);
    var diskStart, localOffset := ReadU16(rest, 34), ReadU32(rest, 42);
    if nameLength == 0 || nameLength > MAX_ENTRY_NAME_BYTES {
      return Err(NameLimits), length;
    }
    if diskStart != 0 || compressed == U32_MAX || uncompressed == U32_MAX || localOffset == U32_MAX {
      return Err(Zip64Entry), length;
    }
    var recordLength := ENTRY_BYTES + nameLength + extraLength + commentLength;
    if offset + recordLength > |bytes| {
      return Err(Truncated), length;
    }
    var name := rest[ENTRY_BYTES..ENTRY_BYTES + nameLength];
    if 0 in name {
      return Err(NulInName), length;
    }
    if !readable(name) {
      return Err(NotText), length;
    }
    ReadWithin(rest, ENTRY_BYTES, 8);
    length := recordLength;
    return Ok(ArchiveEntry(name, flags % 2 != 0, name[|name| - 1] == '/' as int)), length;
  }

  // The loop itself, tied to the records the bytes encode.
  method ParseCentralEntries(bytes: seq<Byte>, expected: nat, readable: seq<Byte> -> bool)
    returns (r: Result<seq<ArchiveEntry>, Fault>)
    ensures r == Parsed(bytes, expected, readable)
  {
    hide ReadU16, ReadU32, Front, ParseFrom, Entries, Record.WellFormed, Record.Entry, Record.Shaped;
    var entries: seq<ArchiveEntry> := [];
    ghost var records: seq<Record> := [];
    var offset := 0;
    assert bytes[0..] == bytes;
    NoEntries();
    PrefixedNothing(ParseFrom(bytes, 0, readable));
    while offset < |bytes|
      invariant 0 <= offset <= |bytes|
      invariant AllShaped(records) && entries == Entries(records)
      invariant Prefixed(records, ParseFrom(bytes[offset..], |records|, readable)) == ParseFrom(bytes, 0, readable)
    {
      ParseStep(bytes, offset, records, readable);
      if |entries| >= MAX_ARCHIVE_ENTRIES {
        return Err(Truncated);
      }
      var entry, length := ReadEntry(bytes, offset, readable);
      if entry.Err? {
        return Err(entry.error);
      }
      ghost var record := Front(bytes[offset..], readable).value;
      EntriesStep(records, record);
      entries := entries + [entry.value];
      records := records + [record];
      offset := offset + length;
    }
    ParsedNothing(bytes[offset..], |records|, readable);
    assert records + [] == records;
    if |entries| != expected {
      return Err(CountMismatch(expected, |entries|));
    }
    return Ok(entries);
  }

  ghost predicate AllShaped(records: seq<Record>) {
    forall i | 0 <= i < |records| :: records[i].Shaped() && records[i].name != []
  }

  lemma NoEntries()
    ensures AllShaped([]) && Entries([]) == []
  {
  }

  lemma EntriesStep(records: seq<Record>, record: Record)
    requires AllShaped(records) && record.Shaped() && record.name != []
    ensures AllShaped(records + [record]) && Entries(records + [record]) == Entries(records) + [record.Entry()]
  {
  }

  lemma ParsedNothing(rest: seq<Byte>, count: nat, readable: seq<Byte> -> bool)
    requires rest == []
    ensures ParseFrom(rest, count, readable) == Ok([])
  {
  }

  // One turn of the loop, against the recursive reading.
  lemma ParseStep(bytes: seq<Byte>, offset: nat, records: seq<Record>, readable: seq<Byte> -> bool)
    requires offset < |bytes|
    ensures |records| >= MAX_ARCHIVE_ENTRIES ==>
              Prefixed(records, ParseFrom(bytes[offset..], |records|, readable)) == Err(Truncated)
    ensures |records| < MAX_ARCHIVE_ENTRIES ==>
              var front := Front(bytes[offset..], readable);
              if front.Err? then Prefixed(records, ParseFrom(bytes[offset..], |records|, readable)) == Err(front.error)
              else
                && front.value.Shaped() && front.value.name != [] && offset + |front.value.Bytes()| <= |bytes|
                && Prefixed(records, ParseFrom(bytes[offset..], |records|, readable))
                   == Prefixed(records + [front.value],
                               ParseFrom(bytes[offset + |front.value.Bytes()|..], |records| + 1, readable))
  {
    hide Front;
    var front := Front(bytes[offset..], readable);
    if |records| < MAX_ARCHIVE_ENTRIES && front.Ok? {
      var length := |front.value.Bytes()|;
      assert bytes[offset..][length..] == bytes[offset + length..];
      PrefixedOne(records, front.value, ParseFrom(bytes[offset + length..], |records| + 1, readable));
    }
  }

  function Prefixed(front: seq<Record>, back: Result<seq<Record>, Fault>): Result<seq<Record>, Fault> {
    if back.Ok? then Ok(front + back.value) else back
  }

  lemma PrefixedNothing(back: Result<seq<Record>, Fault>)
    ensures Prefixed([], back) == back
  {
    if back.Ok? { assert [] + back.value == back.value; }
  }

  lemma PrefixedOne(front: seq<Record>, record: Record, back: Result<seq<Record>, Fault>)
    ensures Prefixed(front, Prefixed([record], back)) == Prefixed(front + [record], back)
  {
    if back.Ok? { assert front + ([record] + back.value) == front + [record] + back.value; }
  }

  // ---------------------------------------------------------------------------------------
  // The end record

  predicate IsEocd(bytes: seq<Byte>, index: nat) {
    && index + EOCD_BYTES <= |bytes|
    && ReadU32(bytes, index) == EOCD_SIGNATURE
    && index + EOCD_BYTES + ReadU16(bytes, index + 20) == |bytes|
  }

  // In bytes: the letters P and K, 5 and 6, and a comment that ends the bytes.
  lemma EocdMeans(bytes: seq<Byte>, index: nat)
    ensures IsEocd(bytes, index) <==>
              && index + 22 <= |bytes|
              && bytes[index] == 'P' as int && bytes[index + 1] == 'K' as int && bytes[index + 2] == 5
              && bytes[index + 3] == 6
              && bytes[index + 20] as int + 256 * bytes[index + 21] as int == |bytes| - index - 22
  {
    if index + 22 <= |bytes| {
      LittleEndian(bytes, index);
    }
  }

  // find_eocd: the last place where an end record fits to the end of the bytes.
  method FindEocd(bytes: seq<Byte>) returns (r: Option<nat>)
    ensures r.Some? ==> IsEocd(bytes, r.value) && forall i: nat | i > r.value :: !IsEocd(bytes, i)
    ensures r.Some? ==> r.value + EOCD_BYTES <= |bytes|
    ensures r.None? ==> forall i: nat :: !IsEocd(bytes, i)
  {
    if |bytes| < EOCD_BYTES {
      return None;
    }
    var index := |bytes| - EOCD_BYTES;
    while true
      invariant 0 <= index <= |bytes| - EOCD_BYTES
      invariant forall i | i > index :: !IsEocd(bytes, i)
      decreases index
    {
      if IsEocd(bytes, index) {
        return Some(index);
      }
      if index == 0 {
        return None;
      }
      index := index - 1;
    }
  }

  // read_central_directory, on the bytes of the whole file.
  method ReadCentralDirectory(file: seq<Byte>, readable: seq<Byte> -> bool)
    returns (r: Result<seq<ArchiveEntry>, Fault>)
    ensures (forall end: nat :: !IsLastEocd(file, end)) ==> r == Err(if |file| < 22 then TooSmall else NoEndRecord)
    ensures forall end: nat | IsLastEocd(file, end) ::
              r == if Locates(file, end) then Parsed(Directory(file, end), ReadU16(file, end + 10), readable)
              else Err(DirectoryFault(file, end))
  {
    hide ReadU16, ReadU32, Parsed, Directory, Locates, IsEocd;
    if |file| < EOCD_BYTES {
      TooSmallForEocd(file);
      return Err(TooSmall);
    }
    var tailLength := if |file| < EOCD_BYTES + MAX_ZIP_COMMENT then |file| else EOCD_BYTES + MAX_ZIP_COMMENT;
    var start := |file| - tailLength;
    var tail := file[start..];
    var found := FindEocd(tail);
    TailSearchSuffices(file, start);
    if found.None? {
      return Err(NoEndRecord);
    }
    var end := start + found.value;
    r := ReadDirectoryAt(file, end, readable);
  }

  lemma TooSmallForEocd(file: seq<Byte>)
    requires |file| < EOCD_BYTES
    ensures forall i: nat :: !IsEocd(file, i)
  {
  }

  // An end record is never further from the end of the file than its comment can be long.
  lemma TailSearchSuffices(file: seq<Byte>, start: nat)
    requires start <= |file| && (start == 0 || start + EOCD_BYTES + MAX_ZIP_COMMENT == |file|)
    ensures forall i: nat :: IsEocd(file, i) ==> i >= start && IsEocd(file[start..], i - start)
    ensures forall i: nat :: IsEocd(file[start..], i) ==> IsEocd(file, start + i)
  {
  }

  ghost predicate IsLastEocd(file: seq<Byte>, end: nat) {
    IsEocd(file, end) && NoEocdAfter(file, end)
  }

  ghost predicate NoEocdAfter(file: seq<Byte>, end: nat) {
    forall i: nat | i > end :: !IsEocd(file, i)
  }

  // A single-disk, non-ZIP64 end record whose directory lies inside the file and the limits.
  ghost predicate Locates(file: seq<Byte>, end: nat) {
    && IsLastEocd(file, end)
    && ReadU16(file, end + 4) == 0 == ReadU16(file, end + 6)
    && ReadU16(file, end + 8) == ReadU16(file, end + 10) != U16_MAX
    && ReadU32(file, end + 12) <= MAX_CENTRAL_DIRECTORY_BYTES
    && ReadU32(file, end + 16) != U32_MAX
    && ReadU32(file, end + 16) + ReadU32(file, end + 12) <= |file|
  }

  // What is wrong with an end record that locates no directory.
  ghost function DirectoryFault(file: seq<Byte>, end: nat): Fault
    requires end + EOCD_BYTES <= |file|
  {
    if ReadU16(file, end + 4) != 0 || ReadU16(file, end + 6) != 0
       || ReadU16(file, end + 8) != ReadU16(file, end + 10) then MultiDisk
    else if ReadU16(file, end + 10) == 65535 || ReadU32(file, end + 12) == 0xFFFF_FFFF
            || ReadU32(file, end + 16) == 0xFFFF_FFFF then Zip64
    else SafetyLimits
  }

  function Directory(file: seq<Byte>, end: nat): seq<Byte>
    requires end + EOCD_BYTES <= |file|
    requires ReadU32(file, end + 16) + ReadU32(file, end + 12) <= |file|
  {
    file[ReadU32(file, end + 16)..ReadU32(file, end + 16) + ReadU32(file, end + 12)]
  }

  method ReadDirectoryAt(file: seq<Byte>, end: nat, readable: seq<Byte> -> bool)
    returns (r: Result<seq<ArchiveEntry>, Fault>)
    requires IsLastEocd(file, end)
    ensures r == if Locates(file, end) then Parsed(Directory(file, end), ReadU16(file, end + 10), readable)
            else Err(DirectoryFault(file, end))
  {
    hide ReadU16, ReadU32;
    var disk, centralDisk := ReadU16(file, end + 4), ReadU16(file, end + 6);
    var diskEntries, totalEntries := ReadU16(file, end + 8), ReadU16(file, end + 10);
    var centralSize, centralOffset := ReadU32(file, end + 12), ReadU32(file, end + 16);
    if disk != 0 || centralDisk != 0 || diskEntries != totalEntries {
      return Err(MultiDisk);
    }
    if totalEntries == U16_MAX || centralSize == U32_MAX || centralOffset == U32_MAX {
      return Err(Zip64);
    }
    if totalEntries > MAX_ARCHIVE_ENTRIES || centralSize > MAX_CENTRAL_DIRECTORY_BYTES
        || centralOffset + centralSize > |file| {
      return Err(SafetyLimits);
    }
    r := ParseCentralEntries(file[centralOffset..centralOffset + centralSize], totalEntries, readable);
  }

  // The end record of section 4.3.16 for a directory of the given place and size.
  function EocdBytes(entries: nat, size: nat, offset: nat, comment: seq<Byte>): (bytes: seq<Byte>)
    requires entries <= U16_MAX && size <= U32_MAX && offset <= U32_MAX && |comment| <= U16_MAX
    ensures |bytes| == EOCD_BYTES + |comment|
  {
    U32Bytes(EOCD_SIGNATURE) + U16Bytes(0) + U16Bytes(0) + U16Bytes(entries) + U16Bytes(entries)
    + U32Bytes(size) + U32Bytes(offset) + U16Bytes(|comment|) + comment
  }

  function ArchiveBytes(contents: seq<Byte>, records: seq<Record>, comment: seq<Byte>): seq<Byte>
    requires |records| <= U16_MAX && |Encode(records)| <= U32_MAX && |contents| <= U32_MAX && |comment| <= U16_MAX
  {
    contents + Encode(records) + EocdBytes(|records|, |Encode(records)|, |contents|, comment)
  }

  lemma EocdReadsBack(front: seq<Byte>, entries: nat, size: nat, offset: nat, comment: seq<Byte>)
    requires entries <= U16_MAX && size <= U32_MAX && offset <= U32_MAX && |comment| <= U16_MAX
    ensures var file, end := front + EocdBytes(entries, size, offset, comment), |front|;
            && IsEocd(file, end)
            && ReadU16(file, end + 4) == 0 == ReadU16(file, end + 6)
            && ReadU16(file, end + 8) == entries == ReadU16(file, end + 10)
            && ReadU32(file, end + 12) == size && ReadU32(file, end + 16) == offset
  {
  }

  // A whole archive reads back as its records, unless its comment itself ends in something that
  // looks like an end record.
  lemma ArchiveReadsBack(contents: seq<Byte>, records: seq<Record>, comment: seq<Byte>, readable: seq<Byte> -> bool)
    requires AllWellFormed(records, readable) && |records| < U16_MAX
    requires |Encode(records)| <= MAX_CENTRAL_DIRECTORY_BYTES && |contents| < U32_MAX && |comment| <= U16_MAX
    requires NoEocdAfter(ArchiveBytes(contents, records, comment), |contents + Encode(records)|)
    ensures var file, end := ArchiveBytes(contents, records, comment), |contents + Encode(records)|;
            && Locates(file, end)
            && Parsed(Directory(file, end), ReadU16(file, end + 10), readable) == Ok(Entries(records))
  {
    hide ReadU16, ReadU32, EocdBytes, ParseFrom, IsEocd, Entries, NoEocdAfter, Encode, Record.WellFormed;
    var directory := Encode(records);
    EocdReadsBack(contents + directory, |records|, |directory|, |contents|, comment);
    var file, end := ArchiveBytes(contents, records, comment), |contents + directory|;
    assert Directory(file, end) == directory;
    ParseInvertsEncode(records, 0, readable);
  }
}
