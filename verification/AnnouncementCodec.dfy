/**
 The ANNOUNCEMENT_UPDATE payload: [4 count] [count entries] [trailing block],
 where the trailing block is absent in old messages and one uint32 repeat count
 per entry in new ones.
 */
module AnnouncementCodec {
  import opened Bytes
  import opened AnnouncementFeed
  import opened Options
  import Framing

  const MSG_TYPE_ANNOUNCEMENT_UPDATE: Byte := 0x0D
  const MAX_TEXT := 4096

  /** One entry as the peer sees it. */
  datatype Entry = Entry(id: Int32, kind: UInt16, severity: Byte, x: Int16, y: Int16, z: Int16,
                         year: Int32, time: Int32, text: seq<Byte>)

  /** The "no position" sentinel and anything beyond 32000 travel as -1. */
  function Clamped(v: Int16): Int16 { if v < 0 || v > 32000 then -1 else v }

  function Shown(r: Report): Entry {
    Entry(r.id, r.kind, r.severity, Clamped(r.x), Clamped(r.y), Clamped(r.z), r.year, r.time,
          if |r.text| > MAX_TEXT then r.text[..MAX_TEXT] else r.text)
  }

  // ---------------------------------------------------------------------
  // Writing
  // ---------------------------------------------------------------------

  function HeadBytes(e: Entry): seq<Byte> {
    WriteUInt32(ToUInt32(e.id)) + WriteUInt16(e.kind) + [e.severity]
  }

  function PlaceBytes(e: Entry): seq<Byte> {
    WriteInt16(e.x) + WriteInt16(e.y) + WriteInt16(e.z)
  }

  function TextBytes(e: Entry): seq<Byte>
    requires |e.text| <= MAX_TEXT
  {
    WriteUInt32(ToUInt32(e.year)) + WriteUInt32(ToUInt32(e.time)) + WriteUInt16(|e.text|) + e.text
  }

  function EntryBytes(e: Entry): seq<Byte>
    requires |e.text| <= MAX_TEXT
  {
    HeadBytes(e) + PlaceBytes(e) + TextBytes(e)
  }

  function Join(parts: seq<seq<Byte>>): seq<Byte> {
    if parts == [] then [] else Join(parts[..|parts| - 1]) + parts[|parts| - 1]
  }

  function EntryParts(batch: seq<Report>): seq<seq<Byte>> {
    seq(|batch|, i requires 0 <= i < |batch| => EntryBytes(Shown(batch[i])))
  }

  function CountParts(batch: seq<Report>): seq<seq<Byte>> {
    seq(|batch|, i requires 0 <= i < |batch| => WriteUInt32(batch[i].repeatCount))
  }

  /** The payload in the current format, and as messages without repeat counts carry it. */
  function Payload(batch: seq<Report>): seq<Byte>
    requires |batch| <= MAX_PER_MSG
  {
    OldPayload(batch) + Join(CountParts(batch))
  }

  function OldPayload(batch: seq<Report>): seq<Byte>
    requires |batch| <= MAX_PER_MSG
  {
    WriteUInt32(|batch|) + Join(EntryParts(batch))
  }

  // ---------------------------------------------------------------------
  // Reading by the layout stated in protocol.h
  // ---------------------------------------------------------------------

  function Take(data: seq<Byte>, n: nat): Option<(seq<Byte>, seq<Byte>)> {
    if |data| < n then None else Some((data[..n], data[n..]))
  }

  function TakeUInt16(data: seq<Byte>): Option<(UInt16, seq<Byte>)> {
    if |data| < 2 then None else Some((ReadUInt16(data, 0), data[2..]))
  }

  function TakeInt16(data: seq<Byte>): Option<(Int16, seq<Byte>)> {
    if |data| < 2 then None else Some((ReadInt16(data, 0), data[2..]))
  }

  function TakeUInt32(data: seq<Byte>): Option<(UInt32, seq<Byte>)> {
    if |data| < 4 then None else Some((ReadUInt32(data, 0), data[4..]))
  }

  function TakeEntry(data: seq<Byte>): Option<(Entry, seq<Byte>)> {
    var ((id, kind, severity), d1) :- TakeHead(data);
    var ((x, y, z), d2) :- TakePlace(d1);
    var ((year, time, text), d3) :- TakeText(d2);
    Some((Entry(id, kind, severity, x, y, z, year, time, text), d3))
  }

  function TakeHead(data: seq<Byte>): Option<((Int32, UInt16, Byte), seq<Byte>)> {
    var (id, d1) :- TakeUInt32(data);
    var (kind, d2) :- TakeUInt16(d1);
    var (severity, d3) :- Take(d2, 1);
    Some(((ToInt32(id), kind, severity[0]), d3))
  }

  function TakePlace(data: seq<Byte>): Option<((Int16, Int16, Int16), seq<Byte>)> {
    var (x, d1) :- TakeInt16(data);
    var (y, d2) :- TakeInt16(d1);
    var (z, d3) :- TakeInt16(d2);
    Some(((x, y, z), d3))
  }

  function TakeText(data: seq<Byte>): Option<((Int32, Int32, seq<Byte>), seq<Byte>)> {
    var (year, d1) :- TakeUInt32(data);
    var (time, d2) :- TakeUInt32(d1);
    var (len, d3) :- TakeUInt16(d2);
    var (text, d4) :- Take(d3, len);
    Some(((ToInt32(year), ToInt32(time), text), d4))
  }

  function TakeEntries(data: seq<Byte>, n: nat): Option<(seq<Entry>, seq<Byte>)> {
    if n == 0 then Some(([], data)) else
      var (e, d1) :- TakeEntry(data);
      var (rest, d2) :- TakeEntries(d1, n - 1);
      Some(([e] + rest, d2))
  }

  function TakeCounts(data: seq<Byte>, n: nat): Option<(seq<UInt32>, seq<Byte>)> {
    if n == 0 then Some(([], data)) else
      var (c, d1) :- TakeUInt32(data);
      var (rest, d2) :- TakeCounts(d1, n - 1);
      Some(([c] + rest, d2))
  }

  datatype Update = Update(entries: seq<Entry>, counts: seq<UInt32>)

  /** Exactly count entries, then nothing (old: every count is 0) or exactly 4 * count bytes (new). */
  function Decode(payload: seq<Byte>): Option<Update> {
    var (n, d1) :- TakeUInt32(payload);
    var (entries, left) :- TakeEntries(d1, n);
    if |left| == 4 * n then
      var (counts, _) :- TakeCounts(left, n);
      Some(Update(entries, counts))
    else if left == [] then Some(Update(entries, seq(n, _ => 0)))
    else None
  }

  // ---------------------------------------------------------------------
  // Round trips
  // ---------------------------------------------------------------------

  lemma TakesUInt16(v: UInt16, tail: seq<Byte>)
    ensures TakeUInt16(WriteUInt16(v) + tail) == Some((v, tail))
  {
    UInt16RoundTrip(v, WriteUInt16(v) + tail, 0);
  }

  lemma TakesInt16(v: Int16, tail: seq<Byte>)
    ensures TakeInt16(WriteInt16(v) + tail) == Some((v, tail))
  {
    Int16RoundTrip(v, WriteInt16(v) + tail, 0);
  }

  lemma TakesUInt32(v: UInt32, tail: seq<Byte>)
    ensures TakeUInt32(WriteUInt32(v) + tail) == Some((v, tail))
  {
    UInt32RoundTrip(v, WriteUInt32(v) + tail, 0);
  }

  lemma TakesPrefix(s: seq<Byte>, tail: seq<Byte>)
    ensures Take(s + tail, |s|) == Some((s, tail))
  {
  }

  lemma TakesHead(e: Entry, tail: seq<Byte>)
    ensures TakeHead(HeadBytes(e) + tail) == Some(((e.id, e.kind, e.severity), tail))
  {
    var d2 := [e.severity] + tail;
    var d1 := WriteUInt16(e.kind) + d2;
    assert HeadBytes(e) + tail == WriteUInt32(ToUInt32(e.id)) + d1;
    TakesUInt32(ToUInt32(e.id), d1);
    TakesUInt16(e.kind, d2);
    TakesPrefix([e.severity], tail);
  }

  lemma TakesPlace(e: Entry, tail: seq<Byte>)
    ensures TakePlace(PlaceBytes(e) + tail) == Some(((e.x, e.y, e.z), tail))
  {
    var d2 := WriteInt16(e.z) + tail;
    var d1 := WriteInt16(e.y) + d2;
    assert PlaceBytes(e) + tail == WriteInt16(e.x) + d1;
    TakesInt16(e.x, d1);
    TakesInt16(e.y, d2);
    TakesInt16(e.z, tail);
  }

  lemma TakesText(e: Entry, tail: seq<Byte>)
    requires |e.text| <= MAX_TEXT
    ensures TakeText(TextBytes(e) + tail) == Some(((e.year, e.time, e.text), tail))
  {
    var year, time := ToUInt32(e.year), ToUInt32(e.time);
    TextLayout(WriteUInt32(year), WriteUInt32(time), WriteUInt16(|e.text|), e.text, tail);
    TakesStamped(year, time, e.text, tail);
    SignedAgain(e.year);
    SignedAgain(e.time);
  }

  lemma TextLayout(year: seq<Byte>, time: seq<Byte>, len: seq<Byte>, text: seq<Byte>, tail: seq<Byte>)
    ensures year + time + len + text + tail == year + (time + (len + (text + tail)))
  {
    Associates(year, time, len, text + tail);
    Regroup(year + time + len, text, tail);
  }

  lemma SignedAgain(v: Int32)
    ensures ToInt32(ToUInt32(v)) == v
  {
  }

  lemma TakesStamped(year: UInt32, time: UInt32, text: seq<Byte>, tail: seq<Byte>)
    requires |text| <= MAX_TEXT
    ensures TakeText(WriteUInt32(year) + (WriteUInt32(time) + (WriteUInt16(|text|) + (text + tail)))) ==
      Some(((ToInt32(year), ToInt32(time), text), tail))
  {
    var d3 := text + tail;
    var d2 := WriteUInt16(|text|) + d3;
    var d1 := WriteUInt32(time) + d2;
    TakesUInt32(year, d1);
    TakesUInt32(time, d2);
    TakesUInt16(|text|, d3);
    TakesPrefix(text, tail);
    TextTaken(WriteUInt32(year) + d1, year, d1, time, d2, |text|, d3, text, tail);
  }

  lemma TextTaken(data: seq<Byte>, year: UInt32, d1: seq<Byte>, time: UInt32, d2: seq<Byte>, len: UInt16, d3: seq<Byte>,
                  text: seq<Byte>, d4: seq<Byte>)
    requires TakeUInt32(data) == Some((year, d1)) && TakeUInt32(d1) == Some((time, d2))
    requires TakeUInt16(d2) == Some((len, d3)) && Take(d3, len) == Some((text, d4))
    ensures TakeText(data) == Some(((ToInt32(year), ToInt32(time), text), d4))
  {
  }

  lemma TakesEntry(e: Entry, tail: seq<Byte>)
    requires |e.text| <= MAX_TEXT
    ensures TakeEntry(EntryBytes(e) + tail) == Some((e, tail))
  {
    Associates(HeadBytes(e), PlaceBytes(e), TextBytes(e), tail);
    TakesHead(e, PlaceBytes(e) + (TextBytes(e) + tail));
    TakesPlace(e, TextBytes(e) + tail);
    TakesText(e, tail);
  }

  lemma Associates(a: seq<Byte>, b: seq<Byte>, c: seq<Byte>, d: seq<Byte>)
    ensures a + b + c + d == a + (b + (c + d))
  {
  }

  function ShownAll(batch: seq<Report>): seq<Entry> {
    seq(|batch|, i requires 0 <= i < |batch| => Shown(batch[i]))
  }

  function CountsOf(batch: seq<Report>): seq<UInt32> {
    seq(|batch|, i requires 0 <= i < |batch| => batch[i].repeatCount)
  }

  lemma {:induction false} JoinFromFront(parts: seq<seq<Byte>>)
    requires parts != []
    ensures Join(parts) == parts[0] + Join(parts[1..])
  {
    var n := |parts| - 1;
    if n > 0 {
      JoinFromFront(parts[..n]);
      assert parts[..n][1..] == parts[1..][..n - 1];
    }
  }

  predicate IsEntry(part: seq<Byte>, e: Entry) {
    |e.text| <= MAX_TEXT && part == EntryBytes(e)
  }

  lemma TakesPart(part: seq<Byte>, e: Entry, tail: seq<Byte>)
    requires IsEntry(part, e)
    ensures TakeEntry(part + tail) == Some((e, tail))
  {
    TakesEntry(e, tail);
  }

  lemma {:induction false} TakesEntries(parts: seq<seq<Byte>>, entries: seq<Entry>, tail: seq<Byte>)
    requires |parts| == |entries| && forall i :: 0 <= i < |entries| ==> IsEntry(parts[i], entries[i])
    ensures TakeEntries(Join(parts) + tail, |parts|) == Some((entries, tail))
  {
    if parts == [] {
      assert Join(parts) + tail == tail;
    } else {
      var rest := Join(parts[1..]) + tail;
      JoinFromFront(parts);
      Regroup(parts[0], Join(parts[1..]), tail);
      TakesPart(parts[0], entries[0], rest);
      TakesEntries(parts[1..], entries[1..], tail);
      TakesOneMore(Join(parts) + tail, |parts|, entries[0], rest, entries[1..], tail);
      assert entries == [entries[0]] + entries[1..];
    }
  }

  lemma Regroup(a: seq<Byte>, b: seq<Byte>, c: seq<Byte>)
    ensures a + b + c == a + (b + c)
  {
  }

  lemma TakesOneMore(data: seq<Byte>, n: nat, e: Entry, d1: seq<Byte>, es: seq<Entry>, d2: seq<Byte>)
    requires n > 0 && TakeEntry(data) == Some((e, d1)) && TakeEntries(d1, n - 1) == Some((es, d2))
    ensures TakeEntries(data, n) == Some(([e] + es, d2))
  {
  }

  lemma {:induction false} TakesCounts(parts: seq<seq<Byte>>, counts: seq<UInt32>)
    requires |parts| == |counts|
    requires forall i :: 0 <= i < |counts| ==> parts[i] == WriteUInt32(counts[i])
    ensures |Join(parts)| == 4 * |parts|
    ensures TakeCounts(Join(parts), |parts|) == Some((counts, []))
  {
    if parts != [] {
      JoinFromFront(parts);
      TakesUInt32(counts[0], Join(parts[1..]));
      TakesCounts(parts[1..], counts[1..]);
      assert counts == [counts[0]] + counts[1..];
    }
  }

  lemma PayloadParts(batch: seq<Report>, tail: seq<Byte>)
    requires |batch| <= MAX_PER_MSG
    ensures TakeUInt32(OldPayload(batch) + tail) == Some((|batch|, Join(EntryParts(batch)) + tail))
    ensures TakeEntries(Join(EntryParts(batch)) + tail, |batch|) == Some((ShownAll(batch), tail))
  {
    var rest := Join(EntryParts(batch)) + tail;
    assert OldPayload(batch) + tail == WriteUInt32(|batch|) + rest;
    TakesUInt32(|batch|, rest);
    TakesEntries(EntryParts(batch), ShownAll(batch), tail);
  }

  /** What a batch carries survives the wire: ids, types, clamped positions, clamped text and repeat counts. */
  lemma UpdateRoundTrip(batch: seq<Report>)
    requires |batch| <= MAX_PER_MSG
    ensures Decode(Payload(batch)) == Some(Update(ShownAll(batch), CountsOf(batch)))
  {
    PayloadParts(batch, Join(CountParts(batch)));
    TakesCounts(CountParts(batch), CountsOf(batch));
  }

  /** A message of the old format decodes to the same entries with every count 0. */
  lemma OldUpdateRoundTrip(batch: seq<Report>)
    requires |batch| <= MAX_PER_MSG
    ensures Decode(OldPayload(batch)) == Some(Update(ShownAll(batch), seq(|batch|, _ => 0)))
  {
    PayloadParts(batch, []);
    assert OldPayload(batch) + [] == OldPayload(batch);
    if batch == [] {
      assert TakeCounts([], 0) == Some(([], []));
      assert seq(0, _ => 0) == [];
    }
  }

  /**
   The new format is longer by one count an entry, and no message of one format is a message of the
   other but the empty one.
   */
  lemma FormatsDiffer(a: seq<Report>, b: seq<Report>)
    requires |a| <= MAX_PER_MSG && |b| <= MAX_PER_MSG
    ensures |Payload(a)| == |OldPayload(a)| + 4 * |a|
    ensures Payload(a) == OldPayload(b) <==> a == [] && b == []
  {
    PayloadParts(a, Join(CountParts(a)));
    TakesCounts(CountParts(a), CountsOf(a));
    PayloadParts(b, []);
    assert OldPayload(b) + [] == OldPayload(b);
  }

  // ---------------------------------------------------------------------
  // send_announcement_update
  // ---------------------------------------------------------------------

  lemma {:induction false} JoinSize(parts: seq<seq<Byte>>, bound: nat)
    requires forall i :: 0 <= i < |parts| ==> |parts[i]| <= bound
    ensures |Join(parts)| <= |parts| * bound
  {
    if parts != [] {
      JoinSize(parts[..|parts| - 1], bound);
    }
  }

  lemma PayloadSize(batch: seq<Report>)
    requires |batch| <= MAX_PER_MSG
    ensures |Payload(batch)| <= 4 + MAX_PER_MSG * (27 + MAX_TEXT)
    ensures Framing.Frame(MSG_TYPE_ANNOUNCEMENT_UPDATE, Payload(batch)).IsValid()
  {
    JoinSize(EntryParts(batch), 23 + MAX_TEXT);
    TakesCounts(CountParts(batch), CountsOf(batch));
  }

  /** Appends the fields of one entry, in wire order. */
  method AppendEntry(msg0: seq<Byte>, r: Report) returns (msg: seq<Byte>)
    ensures msg == msg0 + EntryBytes(Shown(r))
  {
    var head := WriteUInt32(ToUInt32(r.id)) + WriteUInt16(r.kind) + [r.severity];
    var x := if r.x < 0 || r.x > 32000 then -1 else r.x;
    var y := if r.y < 0 || r.y > 32000 then -1 else r.y;
    var z := if r.z < 0 || r.z > 32000 then -1 else r.z;
    var place := WriteInt16(x) + WriteInt16(y) + WriteInt16(z);
    var stamps := WriteUInt32(ToUInt32(r.year)) + WriteUInt32(ToUInt32(r.time));
    var textLen := |r.text|;
    if textLen > MAX_TEXT {
      textLen := MAX_TEXT;
    }
    var text := WriteUInt16(textLen);
    if textLen > 0 {
      text := text + r.text[..textLen];
    }
    assert stamps + text == TextBytes(Shown(r));
    msg := msg0 + (head + place + (stamps + text));
  }

  lemma PartsLast(batch: seq<Report>, i: nat)
    requires i < |batch|
    ensures Join(EntryParts(batch[..i + 1])) == Join(EntryParts(batch[..i])) + EntryBytes(Shown(batch[i]))
    ensures Join(CountParts(batch[..i + 1])) == Join(CountParts(batch[..i])) + WriteUInt32(batch[i].repeatCount)
  {
    assert EntryParts(batch[..i + 1])[..i] == EntryParts(batch[..i]);
    assert CountParts(batch[..i + 1])[..i] == CountParts(batch[..i]);
  }

  lemma OneMoreEntry(body0: seq<Byte>, batch: seq<Report>, i: nat)
    requires i < |batch|
    ensures body0 + Join(EntryParts(batch[..i + 1])) ==
      body0 + Join(EntryParts(batch[..i])) + EntryBytes(Shown(batch[i]))
  {
    PartsLast(batch, i);
    Regroup(body0, Join(EntryParts(batch[..i])), EntryBytes(Shown(batch[i])));
  }

  method AppendEntries(body0: seq<Byte>, news: seq<Report>, sendCount: nat) returns (body: seq<Byte>)
    requires sendCount <= |news|
    ensures body == body0 + Join(EntryParts(news[..sendCount]))
  {
    body := body0;
    for i := 0 to sendCount
      invariant body == body0 + Join(EntryParts(news[..i]))
    {
      OneMoreEntry(body0, news, i);
      body := AppendEntry(body, news[i]);
    }
  }

  method AppendCounts(body0: seq<Byte>, news: seq<Report>, sendCount: nat) returns (body: seq<Byte>)
    requires sendCount <= |news|
    ensures body == body0 + Join(CountParts(news[..sendCount]))
  {
    body := body0;
    for i := 0 to sendCount
      invariant body == body0 + Join(CountParts(news[..i]))
    {
      PartsLast(news, i);
      Regroup(body0, Join(CountParts(news[..i])), WriteUInt32(news[i].repeatCount));
      body := body + WriteUInt32(news[i].repeatCount);
    }
  }

  /** The message send_announcement_update hands to the socket for one non-empty batch. */
  method EncodeUpdate(news: seq<Report>) returns (msg: seq<Byte>)
    ensures var batch := news[..Capped(|news|)];
      && var frame := Framing.Frame(MSG_TYPE_ANNOUNCEMENT_UPDATE, Payload(batch));
      && frame.IsValid() && msg == frame.Bytes()
      && msg[..4] == WriteUInt32(|msg|)
      && Decode(msg[6..]) == Some(Update(ShownAll(batch), CountsOf(batch)))
  {
    var sendCount := |news|;
    if sendCount > MAX_PER_MSG {
      sendCount := MAX_PER_MSG;
    }
    var body := WriteUInt32(sendCount);
    body := AppendEntries(body, news, sendCount);
    body := AppendCounts(body, news, sendCount);
    PayloadSize(news[..sendCount]);
    UpdateRoundTrip(news[..sendCount]);
    msg := FillHeader(body);
  }

  method FillHeader(body: seq<Byte>) returns (msg: seq<Byte>)
    requires Framing.Frame(MSG_TYPE_ANNOUNCEMENT_UPDATE, body).IsValid()
    ensures msg == Framing.Frame(MSG_TYPE_ANNOUNCEMENT_UPDATE, body).Bytes()
    ensures msg[..4] == WriteUInt32(|msg|) && msg[6..] == body
  {
    msg := [0, 0, 0, 0] + [Framing.PROTOCOL_VERSION, MSG_TYPE_ANNOUNCEMENT_UPDATE] + body;
    var length: UInt32 := |msg|;
    msg := msg[0 := length / 0x100_0000][1 := length / 0x1_0000 % 0x100];
    msg := msg[2 := length / 0x100 % 0x100][3 := length % 0x100];
  }
}
