/** The wire evidence of one Agent Tools session: the framed transcript that is hashed, and the pairing
    of requests with answers. */
module WireTranscript {
  import opened Utf8
  import opened Wrappers

  const MAX_FRAMES := 64

  const MAX_KEPT_BYTES := 64 * 1024

  const LENGTH_BOUND := 0x1_0000_0000_0000_0000

  type Bytes = seq<Byte>

  datatype Direction = Sent | Received

  datatype Entry = Entry(direction: Direction, data: Bytes)

  // ---------- the framing ----------

  /** The ASCII name of the direction and its closing NUL. */
  function Tag(direction: Direction): Bytes {
    match direction
    case Sent => [115, 101, 110, 116, 0]
    case Received => [114, 101, 99, 101, 105, 118, 101, 100, 0]
  }

  /** The last `places` bytes of `n`, most significant first. */
  function BigEndian(n: nat, places: nat): (b: Bytes)
    ensures |b| == places
  {
    if places == 0 then [] else BigEndian(n / 256, places - 1) + [n % 256]
  }

  function Number(b: Bytes): nat {
    if b == [] then 0 else 256 * Number(b[..|b| - 1]) + b[|b| - 1]
  }

  function Power(places: nat): nat {
    if places == 0 then 1 else 256 * Power(places - 1)
  }

  lemma {:induction false} BigEndianReads(n: nat, places: nat)
    requires n < Power(places)
    ensures Number(BigEndian(n, places)) == n
  {
    if places > 0 {
      assert n / 256 < Power(places - 1);
      BigEndianReads(n / 256, places - 1);
      assert BigEndian(n, places)[..places - 1] == BigEndian(n / 256, places - 1);
    }
  }

  lemma LengthFits(n: nat)
    requires n < LENGTH_BOUND
    ensures n < Power(8)
  {
    assert Power(4) == 256 * Power(3) == 0x1_0000_0000 by {
      assert Power(3) == 256 * Power(2) && Power(2) == 256 * Power(1) && Power(1) == 256 * Power(0);
    }
    assert Power(8) == 256 * Power(7) && Power(7) == 256 * Power(6) && Power(6) == 256 * Power(5) && Power(5) == 256 * Power(4);
  }

  function Frame(r: Entry): Bytes {
    Tag(r.direction) + BigEndian(|r.data|, 8) + r.data
  }

  /** The bytes that the running hash has been given. */
  function Transcript(records: seq<Entry>): Bytes {
    if records == [] then [] else Transcript(records[..|records| - 1]) + Frame(records[|records| - 1])
  }

  /** The same bytes, front to back. */
  function Framed(records: seq<Entry>): Bytes {
    if records == [] then [] else Frame(records[0]) + Framed(records[1..])
  }

  lemma {:induction false} FramedSnoc(records: seq<Entry>, r: Entry)
    ensures Framed(records + [r]) == Framed(records) + Frame(r)
  {
    if records == [] {
      assert Framed([r]) == Frame(r) + [];
    } else {
      FramedSnoc(records[1..], r);
      assert (records + [r])[1..] == records[1..] + [r];
      assert Frame(records[0]) + (Framed(records[1..]) + Frame(r)) == Frame(records[0]) + Framed(records[1..]) + Frame(r);
    }
  }

  lemma {:induction false} TranscriptIsFramed(records: seq<Entry>)
    ensures Transcript(records) == Framed(records)
  {
    if records != [] {
      var front, last := records[..|records| - 1], records[|records| - 1];
      TranscriptIsFramed(front);
      FramedSnoc(front, last);
      assert records == front + [last];
    }
  }

  // ---------- the decoder ----------

  function ReadTag(b: Bytes): Option<(Direction, Bytes)> {
    if Tag(Sent) <= b then Some((Sent, b[5..]))
    else if Tag(Received) <= b then Some((Received, b[9..]))
    else None
  }

  function ReadFrame(b: Bytes): (r: Option<(Entry, Bytes)>)
    ensures r.Some? ==> |r.value.1| < |b|
  {
    match ReadTag(b)
    case None => None
    case Some((direction, rest)) =>
      if |rest| < 8 then None
      else
        var length, data := Number(rest[..8]), rest[8..];
        if |data| < length then None else Some((Entry(direction, data[..length]), data[length..]))
  }

  /** Reads a transcript back into its records. */
  function ReadFrames(b: Bytes): Option<seq<Entry>>
    decreases |b|
  {
    if b == [] then Some([])
    else match ReadFrame(b)
      case None => None
      case Some((record, rest)) =>
        match ReadFrames(rest)
        case None => None
        case Some(records) => Some([record] + records)
  }

  lemma ReadTagged(direction: Direction, rest: Bytes)
    ensures ReadTag(Tag(direction) + rest) == Some((direction, rest))
  {
    var b := Tag(direction) + rest;
    assert b[..|Tag(direction)|] == Tag(direction) && b[|Tag(direction)|..] == rest;
    if direction == Received {
      assert b[0] != Tag(Sent)[0];
    }
  }

  lemma ReadFramed(r: Entry, rest: Bytes)
    requires |r.data| < LENGTH_BOUND
    ensures ReadFrame(Frame(r) + rest) == Some((r, rest))
  {
    var length := BigEndian(|r.data|, 8);
    assert Frame(r) + rest == Tag(r.direction) + (length + (r.data + rest));
    ReadTagged(r.direction, length + (r.data + rest));
    assert (length + (r.data + rest))[..8] == length && (length + (r.data + rest))[8..] == r.data + rest;
    LengthFits(|r.data|);
    BigEndianReads(|r.data|, 8);
    assert (r.data + rest)[..|r.data|] == r.data && (r.data + rest)[|r.data|..] == rest;
  }

  /** Reading inverts the framing, for every sequence of records whose lengths fit into eight bytes. */
  lemma {:induction false} ReadTranscript(records: seq<Entry>)
    requires forall r | r in records :: |r.data| < LENGTH_BOUND
    ensures ReadFrames(Transcript(records)) == Some(records)
  {
    TranscriptIsFramed(records);
    ReadAll(records);
  }

  lemma {:induction false} ReadAll(records: seq<Entry>)
    requires forall r | r in records :: |r.data| < LENGTH_BOUND
    ensures ReadFrames(Framed(records)) == Some(records)
  {
    if records != [] {
      ReadFramed(records[0], Framed(records[1..]));
      ReadAll(records[1..]);
      assert Framed(records) != [];
      assert [records[0]] + records[1..] == records;
    }
  }

  /** So the hashed bytes determine the records: the transcript is uniquely decodable. */
  lemma TranscriptDetermines(a: seq<Entry>, b: seq<Entry>)
    requires forall r | r in a :: |r.data| < LENGTH_BOUND
    requires forall r | r in b :: |r.data| < LENGTH_BOUND
    requires Transcript(a) == Transcript(b)
    ensures a == b
  {
    ReadTranscript(a);
    ReadTranscript(b);
  }

  // ---------- the recorder ----------

  function First(records: seq<Entry>): (r: seq<Entry>)
    ensures |r| <= MAX_FRAMES && r <= records
  {
    if |records| <= MAX_FRAMES then records else records[..MAX_FRAMES]
  }

  class WireRecorder {
    var frames: seq<Direction>
    var lengths: seq<nat>
    var kept: map<nat, Bytes>
    var transcript: Bytes
    var overflow: bool
    ghost var history: seq<Entry>

    /** The fields describe the first records; the overflow mark says whether there were more. */
    ghost predicate Valid()
      reads this
    {
      && Describes(frames, lengths, kept, First(history))
      && transcript == Transcript(First(history))
      && (overflow <==> |history| > MAX_FRAMES)
    }

    constructor ()
      ensures Valid() && history == []
    {
      frames, lengths, kept, transcript, overflow, history := [], [], map[], [], false, [];
    }

    method Record(direction: Direction, data: Bytes)
      requires Valid()
      modifies this
      ensures Valid() && history == old(history) + [Entry(direction, data)]
    {
      hide Transcript, BigEndian, Tag, Describes;
      ghost var record, recorded := Entry(direction, data), First(history);
      FirstSnoc(history, record);
      DescribesSnoc(frames, lengths, kept, recorded, record);
      TranscriptSnoc(recorded, record);
      history := history + [record];
      if |frames| >= MAX_FRAMES {
        overflow := true;
        return;
      }
      var index := |frames|;
      frames := frames + [direction];
      lengths := lengths + [|data|];
      transcript := transcript + (Tag(direction) + BigEndian(|data|, 8) + data);
      if |data| <= MAX_KEPT_BYTES {
        kept := kept[index := data];
      }
    }
  }

  ghost predicate Describes(frames: seq<Direction>, lengths: seq<nat>, kept: map<nat, Bytes>, recorded: seq<Entry>) {
    && |frames| == |lengths| == |recorded|
    && (forall i | 0 <= i < |recorded| :: frames[i] == recorded[i].direction && lengths[i] == |recorded[i].data|)
    && (forall i :: i in kept <==> 0 <= i < |recorded| && |recorded[i].data| <= MAX_KEPT_BYTES)
    && (forall i | i in kept :: kept[i] == recorded[i].data)
  }

  lemma DescribesSnoc(frames: seq<Direction>, lengths: seq<nat>, kept: map<nat, Bytes>, recorded: seq<Entry>, record: Entry)
    requires Describes(frames, lengths, kept, recorded)
    ensures |frames| == |recorded|
    ensures Describes(frames + [record.direction], lengths + [|record.data|],
                      if |record.data| <= MAX_KEPT_BYTES then kept[|frames| := record.data] else kept,
                      recorded + [record])
  {
  }

  lemma TranscriptSnoc(recorded: seq<Entry>, record: Entry)
    ensures Transcript(recorded + [record]) == Transcript(recorded) + Frame(record)
  {
    assert (recorded + [record])[..|recorded|] == recorded;
  }

  lemma FirstSnoc(history: seq<Entry>, record: Entry)
    ensures First(history + [record]) == if |history| < MAX_FRAMES then First(history) + [record] else First(history)
  {
  }

  /** Without an overflow the transcript is the one of everything that was recorded. */
  lemma NothingDropped(r: WireRecorder)
    requires r.Valid() && !r.overflow && forall x | x in r.history :: |x.data| < LENGTH_BOUND
    ensures ReadFrames(r.transcript) == Some(r.history)
  {
    ReadTranscript(r.history);
  }

  // ---------- the pairing ----------

  datatype Exchange = Exchange(request: nat, answer: nat)

  /** The places of the frames of one direction, in order. */
  function Places(frames: seq<Direction>, direction: Direction): (r: seq<nat>)
    ensures forall i | 0 <= i < |r| :: r[i] < |frames| && frames[r[i]] == direction
    ensures forall i, j | 0 <= i < j < |r| :: r[i] < r[j]
    ensures forall k | 0 <= k < |frames| && frames[k] == direction :: k in r
  {
    if frames == [] then []
    else
      var front := Places(frames[..|frames| - 1], direction);
      if frames[|frames| - 1] == direction then front + [|frames| - 1] else front
  }

  method ListPlaces(frames: seq<Direction>, direction: Direction) returns (r: seq<nat>)
    ensures r == Places(frames, direction)
  {
    r := [];
    for i := 0 to |frames|
      invariant r == Places(frames[..i], direction)
    {
      assert frames[..i + 1][..i] == frames[..i];
      if frames[i] == direction {
        r := r + [i];
      }
    }
    assert frames[..|frames|] == frames;
  }

  /** The first received frame is the acknowledgement of the session starter. */
  predicate Acknowledged(frames: seq<Direction>, kept: map<nat, Bytes>, acknowledgement: Bytes) {
    var received := Places(frames, Received);
    received != [] && received[0] in kept && kept[received[0]] == acknowledgement
  }

  /** The received frames without the acknowledgement. */
  function Answers(frames: seq<Direction>, kept: map<nat, Bytes>, acknowledgement: Bytes): seq<nat> {
    var received := Places(frames, Received);
    if Acknowledged(frames, kept, acknowledgement) then received[1..] else received
  }

  /** A line that was kept is a JSON object; `parse` gives what the library reads as the object's id. */
  predicate Reads<ID>(kept: map<nat, Bytes>, parse: Bytes -> Result<ID>, index: nat) {
    index in kept ==> parse(kept[index]).Ok?
  }

  /** Both lines of the exchange read, and their ids agree where both were kept. `same` is the comparison
      of the language, which also takes 1, 1.0 and True, and a missing id and null, for the same. */
  predicate Agree<ID>(kept: map<nat, Bytes>, parse: Bytes -> Result<ID>, same: (ID, ID) -> bool, x: Exchange) {
    && Reads(kept, parse, x.request) && Reads(kept, parse, x.answer)
    && (x.request in kept && x.answer in kept ==> same(parse(kept[x.request]).value, parse(kept[x.answer]).value))
  }

  /** The pairing in `evidence`: requests and answers in order, as many of both, at least two, with
      agreeing ids where both lines were kept. */
  method Pair<ID>(frames: seq<Direction>, kept: map<nat, Bytes>, acknowledgement: Bytes,
                  parse: Bytes -> Result<ID>, same: (ID, ID) -> bool)
    returns (r: Result<seq<Exchange>>)
    ensures r.Ok? ==> Paired(frames, kept, acknowledgement, r.value) && |r.value| >= 2
    ensures r.Ok? ==> forall x | x in r.value :: Agree(kept, parse, same, x)
    ensures r.Err? ==>
      || |Places(frames, Sent)| < 2
      || |Places(frames, Sent)| != |Answers(frames, kept, acknowledgement)|
      || exists i | 0 <= i < |Places(frames, Sent)| ::
           !Agree(kept, parse, same, Exchange(Places(frames, Sent)[i], Answers(frames, kept, acknowledgement)[i]))
  {
    hide Places, Agree;
    var sent := ListPlaces(frames, Sent);
    var received := ListPlaces(frames, Received);
    var acknowledged := received != [] && received[0] in kept && kept[received[0]] == acknowledgement;
    var answers := if acknowledged then received[1..] else received;
    assert answers == Answers(frames, kept, acknowledgement);
    if |sent| < 2 || |sent| != |answers| {
      return Err;
    }
    var exchanges: seq<Exchange> := [];
    for i := 0 to |sent|
      invariant |exchanges| == i
      invariant forall j | 0 <= j < i :: exchanges[j] == Exchange(sent[j], answers[j]) && Agree(kept, parse, same, exchanges[j])
    {
      var exchange := Exchange(sent[i], answers[i]);
      if !Agree(kept, parse, same, exchange) {
        return Err;
      }
      exchanges := exchanges + [exchange];
    }
    return Ok(exchanges);
  }

  ghost predicate Paired(frames: seq<Direction>, kept: map<nat, Bytes>, acknowledgement: Bytes, exchanges: seq<Exchange>) {
    var sent, answers := Places(frames, Sent), Answers(frames, kept, acknowledgement);
    && |exchanges| == |sent| == |answers|
    && forall i | 0 <= i < |exchanges| :: exchanges[i] == Exchange(sent[i], answers[i])
  }

  predicate Has(x: Exchange, frame: nat) {
    x.request == frame || x.answer == frame
  }

  /** Accepted evidence puts every frame in exactly one exchange, as its request or its answer, except
      the acknowledgement, which is in none. */
  lemma EveryFrameOnce(frames: seq<Direction>, kept: map<nat, Bytes>, acknowledgement: Bytes,
                       exchanges: seq<Exchange>, frame: nat)
    requires Paired(frames, kept, acknowledgement, exchanges) && frame < |frames|
    ensures IsAcknowledgement(frames, kept, acknowledgement, frame) ==>
      forall i | 0 <= i < |exchanges| :: !Has(exchanges[i], frame)
    ensures !IsAcknowledgement(frames, kept, acknowledgement, frame) ==>
      exists i | 0 <= i < |exchanges| :: Has(exchanges[i], frame)
    ensures forall i, j | 0 <= i < j < |exchanges| :: !(Has(exchanges[i], frame) && Has(exchanges[j], frame))
    ensures forall i | 0 <= i < |exchanges| :: exchanges[i].request != exchanges[i].answer
  {
    hide Places, Answers, Acknowledged;
    AnswersPlaced(frames, kept, acknowledgement);
    if !IsAcknowledgement(frames, kept, acknowledgement, frame) {
      FrameIsPaired(frames, kept, acknowledgement, exchanges, frame);
    }
  }

  predicate IsAcknowledgement(frames: seq<Direction>, kept: map<nat, Bytes>, acknowledgement: Bytes, frame: nat) {
    Acknowledged(frames, kept, acknowledgement) && frame == Places(frames, Received)[0]
  }

  /** The answers are places of received frames in order, and the acknowledgement comes before them. */
  lemma AnswersPlaced(frames: seq<Direction>, kept: map<nat, Bytes>, acknowledgement: Bytes)
    ensures var answers := Answers(frames, kept, acknowledgement);
      && (forall i | 0 <= i < |answers| :: answers[i] < |frames| && frames[answers[i]] == Received)
      && (forall i, j | 0 <= i < j < |answers| :: answers[i] < answers[j])
      && (Acknowledged(frames, kept, acknowledgement) ==>
            forall i | 0 <= i < |answers| :: Places(frames, Received)[0] < answers[i])
  {
    hide Places;
  }

  lemma FrameIsPaired(frames: seq<Direction>, kept: map<nat, Bytes>, acknowledgement: Bytes,
                      exchanges: seq<Exchange>, frame: nat)
    requires Paired(frames, kept, acknowledgement, exchanges) && frame < |frames|
    requires !IsAcknowledgement(frames, kept, acknowledgement, frame)
    ensures exists i | 0 <= i < |exchanges| :: Has(exchanges[i], frame)
  {
    hide Places;
    var sent, received := Places(frames, Sent), Places(frames, Received);
    if frames[frame] == Sent {
      var i :| 0 <= i < |sent| && sent[i] == frame;
      assert Has(exchanges[i], frame);
    } else {
      var k :| 0 <= k < |received| && received[k] == frame;
      var i := if Acknowledged(frames, kept, acknowledgement) then k - 1 else k;
      assert Answers(frames, kept, acknowledgement)[i] == frame;
      assert Has(exchanges[i], frame);
    }
  }
}
