/** The exact stdio journal of one Codex run (benchmarks/codex_protocol_journal.py). */
module ProtocolJournal {
  import opened Common
  import opened Base64
  import opened ExperimentPlan

  const MAX_PROTOCOL_PAYLOAD_BYTES: nat := 1024 * 1024
  const MAX_JOURNAL_RECORD_BYTES: nat := 2 * 1024 * 1024
  const MAX_JOURNAL_RECORDS: nat := 10_000
  const MAX_JOURNAL_BYTES: nat := 64 * 1024 * 1024
  const NEWLINE: Byte := 10

  datatype Direction = Stdin | Stdout

  datatype Transport = CodexStdio | OtherTransport(name: string)

  /** The digest of one exact payload. */
  datatype PayloadSha = PayloadSha(bytes: seq<Byte>)

  datatype Identity = Identity(runId: string, arm: Arm, task: string)

  /** What the footer binds: traffic counts, worker identity and transport. */
  datatype Closing = Closing(lines: nat, stdin: nat, stdout: nat, threadId: string, initialTurn: string,
                             turns: nat, harness: string, transport: Transport)

  /** literals: every field the format fixes to one constant carries that constant. */
  datatype Body =
    | Header(literals: bool, transport: Transport, hasThread: bool)
    | Line(literals: bool, direction: Option<Direction>, payload64: string, payloadBytes: int, payloadSha: PayloadSha)
    | Footer(literals: bool, complete: bool, closing: Closing)
    | OtherBody

  /** One JSON line. timestamp is None when it does not parse or has no zone. */
  datatype Record = Record(schema: int, identity: Identity, sequence: int, timestamp: Option<int>, body: Body)

  /** Canonical JSON: any encoding of records as single nonblank lines that decodes back. */
  datatype Codec = Codec(encode: Record -> seq<Byte>, decode: seq<Byte> -> Option<Record>) {
    ghost predicate Lawful() {
      forall r: Record ::
        var line := encode(r);
        && |line| >= 2 && line[|line| - 1] == NEWLINE && NEWLINE !in line[..|line| - 1]
        && !Blank(line) && decode(line) == Some(r)
    }
  }

  predicate Space(b: Byte) {
    b == 32 || 9 <= b <= 13
  }

  predicate Blank(line: seq<Byte>) {
    forall i | 0 <= i < |line| :: Space(line[i])
  }

  function EncodeAll(codec: Codec, records: seq<Record>): seq<Byte> {
    if records == [] then [] else EncodeAll(codec, records[..|records| - 1]) + codec.encode(records[|records| - 1])
  }

  /** One line as the transport delivered it. */
  datatype Observed = Observed(direction: Direction, payload: seq<Byte>, at: Option<int>)

  predicate ExactLine(payload: seq<Byte>) {
    0 < |payload| <= MAX_PROTOCOL_PAYLOAD_BYTES && payload[|payload| - 1] == NEWLINE
  }

  function Count(traffic: seq<Observed>, d: Direction): nat {
    if traffic == [] then 0
    else Count(traffic[..|traffic| - 1], d) + if traffic[|traffic| - 1].direction == d then 1 else 0
  }

  function HeaderRecord(identity: Identity, started: Option<int>): Record {
    Record(2, identity, 0, started, Header(true, CodexStdio, false))
  }

  function LineRecord(identity: Identity, sequence: nat, o: Observed): Record {
    Record(2, identity, sequence, o.at,
           Line(true, Some(o.direction), Encode(o.payload), |o.payload|, PayloadSha(o.payload)))
  }

  /** The records of an open journal: the header, then the traffic in observation order. */
  function OpenRecords(identity: Identity, started: Option<int>, traffic: seq<Observed>): (r: seq<Record>)
    ensures |r| == |traffic| + 1
  {
    if traffic == [] then [HeaderRecord(identity, started)]
    else
      var n := |traffic| - 1;
      OpenRecords(identity, started, traffic[..n]) + [LineRecord(identity, n + 1, traffic[n])]
  }

  function FooterRecord(identity: Identity, sequence: nat, ended: Option<int>, closing: Closing): Record {
    Record(2, identity, sequence, ended, Footer(true, true, closing))
  }

  function ClosingOf(traffic: seq<Observed>, threadId: string, initialTurn: string, turns: nat, harness: string): Closing {
    Closing(|traffic|, Count(traffic, Stdin), Count(traffic, Stdout), threadId, initialTurn, turns, harness, CodexStdio)
  }

  function SealedRecords(identity: Identity, started: Option<int>, traffic: seq<Observed>, ended: Option<int>,
                         closing: Closing): seq<Record> {
    OpenRecords(identity, started, traffic) + [FooterRecord(identity, |traffic| + 1, ended, closing)]
  }

  /** Everything the journal's bounds promise about a sealed file. */
  ghost predicate WithinBounds(codec: Codec, records: seq<Record>) {
    && |records| <= MAX_JOURNAL_RECORDS
    && |EncodeAll(codec, records)| <= MAX_JOURNAL_BYTES
    && forall r | r in records :: |codec.encode(r)| <= MAX_JOURNAL_RECORD_BYTES
  }

  ghost predicate ExactTraffic(traffic: seq<Observed>) {
    forall i | 0 <= i < |traffic| :: ExactLine(traffic[i].payload)
  }

  predicate LowerHex64(s: string) {
    |s| == 64 && forall i | 0 <= i < |s| :: '0' <= s[i] <= '9' || 'a' <= s[i] <= 'f'
  }

  /** finish refuses to seal without an identity and traffic both ways. */
  predicate Sealable(closing: Closing) {
    && 0 < |closing.threadId| <= 256 && 0 < |closing.initialTurn| <= 256
    && 1 <= closing.turns <= 100 && LowerHex64(closing.harness)
    && closing.lines > 0 && closing.stdin > 0 && closing.stdout > 0
  }

  /** The byte counts successive os.write calls report are enough to write n bytes. */
  predicate Suffices(n: nat, writes: seq<int>) {
    n == 0 || (writes != [] && writes[0] > 0 && Suffices(if writes[0] < n then n - writes[0] else 0, writes[1..]))
  }

  lemma HexIff(s: string)
    ensures LowerHex64(s) <==> |s| == 64 && forall c | c in s :: c in "0123456789abcdef"
  {
    if LowerHex64(s) {
      forall c | c in s ensures c in "0123456789abcdef" {
        var i :| 0 <= i < |s| && s[i] == c;
        HexDigit(c);
      }
    }
    if |s| == 64 && forall c | c in s :: c in "0123456789abcdef" {
      forall i | 0 <= i < |s| ensures '0' <= s[i] <= '9' || 'a' <= s[i] <= 'f' {
        HexDigit(s[i]);
      }
    }
  }

  lemma HexDigit(c: char)
    ensures '0' <= c <= '9' || 'a' <= c <= 'f' <==> c in "0123456789abcdef"
  {
    var digits := "0123456789abcdef";
    if '0' <= c <= '9' { assert digits[c as int - '0' as int] == c; }
    if 'a' <= c <= 'f' { assert digits[10 + c as int - 'a' as int] == c; }
  }

  /** Exactly the identities and traffic counts that finish seals. */
  lemma SealableIff(c: Closing)
    ensures Sealable(c) <==>
              && 1 <= |c.threadId| < 257 && 1 <= |c.initialTurn| < 257 && 0 < c.turns < 101
              && |c.harness| == 64 && (forall x | x in c.harness :: x in "0123456789abcdef")
              && c.lines >= 1 && c.stdin >= 1 && c.stdout >= 1
  {
    HexIff(c.harness);
  }

  lemma EmptyBounds(codec: Codec)
    ensures EncodeAll(codec, []) == [] && WithinBounds(codec, [])
  {
  }

  lemma EmptyTraffic(identity: Identity, started: Option<int>)
    ensures RecordsOf(identity, started, []) == [HeaderRecord(identity, started)] && TrafficOf([]) == []
    ensures ExactTraffic([]) && Count([], Stdin) == 0 && Count([], Stdout) == 0
  {
  }

  // ----- the journal as a value: what was appended, and its three flags -----

  /** One record after the header: a protocol line, or the footer of some call of finish. */
  datatype JournalEntry = Heard(line: Observed) | Footed(ended: Option<int>, closing: Closing)

  datatype Journal = Journal(log: seq<JournalEntry>, failed: bool, closed: bool, complete: bool)

  const OPENED := Journal([], false, false, false)

  /** What never changes while a journal is open. */
  datatype Setup = Setup(codec: Codec, identity: Identity, started: Option<int>)

  /**
   * What follows a written footer. Raised: a call between the write and the comparison raised, before
   * the seek or with seekedTo bytes read again. Compared: the file's identity and content as they were
   * seen, and whether the descriptor then closes without raising.
   */
  datatype AfterFooter =
    | Raised(seekedTo: Option<nat>)
    | Compared(sameFile: bool, readBack: seq<Byte>, closes: bool)

  datatype Call =
    | ObserveCall(line: Observed, writes: seq<int>)
    | FinishCall(ended: Option<int>, threadId: string, initialTurn: string, turns: nat, harness: string,
                 writes: seq<int>, after: AfterFooter)
    | AbortCall(closes: bool)

  function TrafficOf(log: seq<JournalEntry>): (traffic: seq<Observed>)
    ensures |traffic| <= |log|
  {
    if log == [] then []
    else
      var n := |log| - 1;
      TrafficOf(log[..n]) + if log[n].Heard? then [log[n].line] else []
  }

  function EntryRecord(identity: Identity, sequence: nat, e: JournalEntry): Record {
    match e
    case Heard(line) => LineRecord(identity, sequence, line)
    case Footed(ended, closing) => FooterRecord(identity, sequence, ended, closing)
  }

  /** The records of any journal: the header, then each entry at its own sequence number. */
  function RecordsOf(identity: Identity, started: Option<int>, log: seq<JournalEntry>): (r: seq<Record>)
    ensures |r| == |log| + 1
  {
    if log == [] then [HeaderRecord(identity, started)]
    else
      var n := |log| - 1;
      RecordsOf(identity, started, log[..n]) + [EntryRecord(identity, n + 1, log[n])]
  }

  function FileOf(s: Setup, log: seq<JournalEntry>): seq<Byte> {
    EncodeAll(s.codec, RecordsOf(s.identity, s.started, log))
  }

  predicate Room(s: Setup, log: seq<JournalEntry>, e: JournalEntry) {
    var encoded := s.codec.encode(EntryRecord(s.identity, |log| + 1, e));
    && |log| + 1 < MAX_JOURNAL_RECORDS
    && |encoded| <= MAX_JOURNAL_RECORD_BYTES
    && |FileOf(s, log)| + |encoded| <= MAX_JOURNAL_BYTES
  }

  /** The record of e is written whole: it fits, and the writes suffice for it. */
  predicate Lands(s: Setup, j: Journal, e: JournalEntry, writes: seq<int>) {
    && !j.closed && !j.failed && Room(s, j.log, e)
    && Suffices(|s.codec.encode(EntryRecord(s.identity, |j.log| + 1, e))|, writes)
  }

  function ClosingFor(j: Journal, call: Call): Closing
    requires call.FinishCall?
  {
    ClosingOf(TrafficOf(j.log), call.threadId, call.initialTurn, call.turns, call.harness)
  }

  function FooterFor(j: Journal, call: Call): JournalEntry
    requires call.FinishCall?
  {
    Footed(call.ended, ClosingFor(j, call))
  }

  /** finish writes its footer. */
  predicate LandsFooter(s: Setup, j: Journal, call: Call) {
    call.FinishCall? && Sealable(ClosingFor(j, call)) && Lands(s, j, FooterFor(j, call), call.writes)
  }

  /** What was seen after the footer is the counted file, under its own name. */
  predicate Agrees(after: AfterFooter, file: seq<Byte>) {
    after.Compared? && after.sameFile && after.readBack == file
  }

  predicate Verified(s: Setup, j: Journal, call: Call) {
    LandsFooter(s, j, call) && Agrees(call.after, FileOf(s, j.log + [FooterFor(j, call)]))
  }

  /** finish returns the path and digest: everything was verified and the descriptor closed. */
  predicate Seals(s: Setup, j: Journal, call: Call) {
    Verified(s, j, call) && call.after.closes
  }

  /** finish raises with its footer written and the journal neither failed nor closed. */
  predicate RaisesAfterFooter(s: Setup, j: Journal, call: Call) {
    LandsFooter(s, j, call) && (call.after.Raised? || (Verified(s, j, call) && !call.after.closes))
  }

  /** The end of finish, once its footer is written and the file should hold these bytes. */
  function Judged(j: Journal, file: seq<Byte>, after: AfterFooter): Journal {
    if after.Raised? then j
    else if !Agrees(after, file) then j.(failed := true)
    else j.(complete := true, closed := after.closes)
  }

  function Step(s: Setup, j: Journal, call: Call): Journal {
    match call
    case ObserveCall(line, writes) =>
      if !ExactLine(line.payload) then j.(failed := true)
      else if j.closed || j.failed then j
      else if Lands(s, j, Heard(line), writes) then j.(log := j.log + [Heard(line)])
      else j.(failed := true)
    case FinishCall(_, _, _, _, _, _, after) =>
      if j.failed then j
      else if !Sealable(ClosingFor(j, call)) then j.(failed := true)
      else if j.closed then j
      else if !LandsFooter(s, j, call) then j.(failed := true)
      else
        var written := j.(log := j.log + [FooterFor(j, call)]);
        Judged(written, FileOf(s, written.log), after)
    case AbortCall(closes) =>
      if j.closed then j else j.(closed := closes)
  }

  function Run(s: Setup, calls: seq<Call>): Journal {
    if calls == [] then OPENED
    else Step(s, Run(s, calls[..|calls| - 1]), calls[|calls| - 1])
  }

  /** Data written over a file at an offset, beyond its end if need be. */
  function Overwrite(file: seq<Byte>, at: nat, data: seq<Byte>): seq<Byte>
    requires at <= |file|
  {
    file[..at] + data + file[if at + |data| < |file| then at + |data| else |file|..]
  }

  lemma TrafficGrows(log: seq<JournalEntry>, e: JournalEntry)
    ensures TrafficOf(log + [e]) == TrafficOf(log) + if e.Heard? then [e.line] else []
  {
    assert (log + [e])[..|log|] == log;
  }

  lemma RecordsGrow(identity: Identity, started: Option<int>, log: seq<JournalEntry>, e: JournalEntry)
    ensures RecordsOf(identity, started, log + [e]) ==
              RecordsOf(identity, started, log) + [EntryRecord(identity, |log| + 1, e)]
  {
    assert (log + [e])[..|log|] == log;
  }

  lemma CountGrows(traffic: seq<Observed>, o: Observed, d: Direction)
    ensures Count(traffic + [o], d) == Count(traffic, d) + if o.direction == d then 1 else 0
  {
    assert (traffic + [o])[..|traffic|] == traffic;
  }

  lemma OverwriteMore(file: seq<Byte>, at: nat, data: seq<Byte>, more: seq<Byte>)
    requires at <= |file|
    ensures at + |data| <= |Overwrite(file, at, data)|
    ensures Overwrite(Overwrite(file, at, data), at + |data|, more) == Overwrite(file, at, data + more)
  {
  }

  lemma OverwriteNothing(file: seq<Byte>, at: nat)
    requires at <= |file|
    ensures Overwrite(file, at, []) == file
  {
  }

  class CodexProtocolJournal {
    const codec: Codec
    const identity: Identity
    var sequence: nat
    var protocolLines: nat
    var stdinLines: nat
    var stdoutLines: nat
    var bytesWritten: nat
    var digest: seq<Byte>
    var closed: bool
    var complete: bool
    var failed: bool
    var file: seq<Byte>
    var position: nat
    ghost var started: Option<int>
    ghost var log: seq<JournalEntry>
    ghost var records: seq<Record>

    ghost function View(): Journal
      reads this
    {
      Journal(log, failed, closed, complete)
    }

    ghost function Opening(): Setup
      reads this
    {
      Setup(codec, identity, started)
    }

    /**
     * Until it fails, every counter and the digest are those of the encoded records. The file is no
     * longer than they say, and shorter once a read that raised midway left the offset before its end.
     */
    ghost predicate FileOk()
      reads this
    {
      && digest == EncodeAll(codec, records) && bytesWritten == |digest| && sequence == |records|
      && WithinBounds(codec, records)
      && position <= |file| <= bytesWritten && (|file| == bytesWritten ==> file == digest)
    }

    /** The traffic counters agree with what was observed. */
    ghost predicate CountsOk()
      reads this
    {
      var traffic := TrafficOf(log);
      && ExactTraffic(traffic)
      && protocolLines == |traffic| && stdinLines == Count(traffic, Stdin) && stdoutLines == Count(traffic, Stdout)
    }

    ghost predicate Recorded()
      reads this
    {
      !failed ==> FileOk() && records == RecordsOf(identity, started, log)
    }

    ghost predicate Valid()
      reads this
    {
      Recorded() && (!failed ==> CountsOk())
    }

    /**
     * Opens the exclusive file, checks that its path still names it, and writes the header. When the check or the
     * write raises, the file is closed and nobody holds the journal: failed stands for that.
     */
    constructor (codec: Codec, identity: Identity, started: Option<int>, samePath: bool, writes: seq<int>)
      ensures Valid() && Opening() == Setup(codec, identity, started)
      ensures !failed <==> samePath && |codec.encode(HeaderRecord(identity, started))| <= MAX_JOURNAL_RECORD_BYTES
                           && Suffices(|codec.encode(HeaderRecord(identity, started))|, writes)
      ensures !failed ==> View() == OPENED && file == digest
      ensures failed ==> closed && !complete
      ensures !samePath ==> file == []
    {
      hide EncodeAll, WithinBounds, Suffices, Encode, ExactTraffic, LineRecord, RecordsOf, Count;
      this.codec, this.identity := codec, identity;
      sequence, protocolLines, stdinLines, stdoutLines, bytesWritten := 0, 0, 0, 0, 0;
      digest, file, position := [], [], 0;
      closed, complete, failed := false, false, false;
      this.started, log, records := started, [], [];
      new;
      EmptyBounds(codec);
      EmptyTraffic(identity, started);
      if !samePath {
        failed, closed := true, true;
        return;
      }
      var header := HeaderRecord(identity, started);
      var ok := WriteRecord(header, writes);
      if !ok {
        failed, closed := true, true;
      } else {
        assert records == [] + [header] == [header];
      }
    }

    /** _write_all: keeps writing what is left until nothing is, through arbitrary partial writes. */
    method WriteAll(data: seq<Byte>, writes: seq<int>) returns (ok: bool)
      requires position <= |file|
      modifies this`file, this`position
      ensures ok <==> Suffices(|data|, writes)
      ensures position <= |file|
      ensures ok ==> file == Overwrite(old(file), old(position), data) && position == old(position) + |data|
      ensures !ok ==> exists k :: 0 <= k < |data| && file == Overwrite(old(file), old(position), data[..k])
    {
      hide Overwrite;
      var done, calls := 0, 0;
      OverwriteNothing(file, position);
      while done < |data|
        invariant 0 <= done <= |data| && 0 <= calls <= |writes|
        invariant position == old(position) + done && position <= |file|
        invariant file == Overwrite(old(file), old(position), data[..done])
        invariant Suffices(|data|, writes) <==> Suffices(|data| - done, writes[calls..])
        decreases |data| - done
      {
        if calls == |writes| || writes[calls] <= 0 {
          return false;
        }
        var written := if writes[calls] < |data| - done then writes[calls] else |data| - done;
        var chunk := data[done..done + written];
        OverwriteMore(old(file), old(position), data[..done], chunk);
        OverwriteMore(file, position, chunk, []);
        file := Overwrite(file, position, chunk);
        position := position + written;
        assert data[..done] + chunk == data[..done + written];
        assert writes[calls..][1..] == writes[calls + 1..];
        done, calls := done + written, calls + 1;
      }
      assert data[..done] == data;
      return true;
    }

    predicate Fits(record: Record)
      reads this
    {
      && sequence < MAX_JOURNAL_RECORDS
      && |codec.encode(record)| <= MAX_JOURNAL_RECORD_BYTES
      && bytesWritten + |codec.encode(record)| <= MAX_JOURNAL_BYTES
    }

    /** _write_record: all or, as far as the journal will ever admit, nothing. */
    method WriteRecord(record: Record, writes: seq<int>) returns (ok: bool)
      requires !failed ==> FileOk()
      modifies this`file, this`position, this`failed, this`digest, this`bytesWritten, this`sequence, this`records
      ensures ok <==> old(!closed && !failed && Fits(record)) && Suffices(|codec.encode(record)|, writes)
      ensures ok ==> !failed && records == old(records) + [record] && sequence == old(sequence) + 1 && FileOk()
                     && digest == old(digest) + codec.encode(record)
                     && (old(position == bytesWritten) ==> file == digest && position == bytesWritten)
                     && (old(position < bytesWritten) && codec.encode(record) != [] ==>
                           |file| < bytesWritten)
      ensures !ok && (old(closed) || old(failed)) ==>
                failed == old(failed) && file == old(file) && position == old(position) && records == old(records)
                && digest == old(digest) && bytesWritten == old(bytesWritten) && sequence == old(sequence)
      ensures !ok && !old(closed) ==> failed
    {
      if closed || failed { return false; }
      if sequence >= MAX_JOURNAL_RECORDS {
        failed := true;
        return false;
      }
      var encoded := codec.encode(record);
      if |encoded| > MAX_JOURNAL_RECORD_BYTES || bytesWritten + |encoded| > MAX_JOURNAL_BYTES {
        failed := true;
        return false;
      }
      ok := WriteAll(encoded, writes);
      if !ok {
        failed := true;
        return;
      }
      digest := digest + encoded;
      bytesWritten := bytesWritten + |encoded|;
      sequence := sequence + 1;
      records := records + [record];
      assert records[..|records| - 1] == old(records);
    }

    /** _write_record for one entry, which then is in the log. */
    method WriteEntry(e: JournalEntry, writes: seq<int>) returns (ok: bool)
      requires Recorded()
      modifies this`file, this`position, this`failed, this`digest, this`bytesWritten, this`sequence, this`records, this`log
      ensures Recorded()
      ensures ok <==> Lands(Opening(), old(View()), e, writes)
      ensures View() == old(View()).(log := if ok then old(log) + [e] else old(log),
                                     failed := old(failed) || (!ok && !closed))
      ensures ok ==> !closed && !failed
      ensures ok && old(position == bytesWritten) ==> file == digest && position == bytesWritten
      ensures ok && codec.Lawful() && old(position < bytesWritten) ==> |file| < bytesWritten
    {
      hide Encode, EncodeAll, WithinBounds, Suffices, RecordsOf, LineRecord, FooterRecord;
      ok := WriteRecord(EntryRecord(identity, sequence, e), writes);
      if ok {
        RecordsGrow(identity, started, log, e);
        log := log + [e];
      }
    }

    /** observe: one exact line, recorded in observation order or the journal is spoiled. */
    method Observe(direction: Direction, payload: seq<Byte>, at: Option<int>, writes: seq<int>) returns (ok: bool)
      requires Valid()
      modifies this
      ensures Valid() && Opening() == old(Opening())
      ensures View() == Step(Opening(), old(View()), ObserveCall(Observed(direction, payload, at), writes))
      ensures ok <==> 1 <= |payload| <= 1_048_576 && payload[|payload| - 1] == 10 && Lands(Opening(), old(View()), Heard(Observed(direction, payload, at)), writes)
      ensures ok ==> TrafficOf(log) == TrafficOf(old(log)) + [Observed(direction, payload, at)]
    {
      hide Encode, EncodeAll, WithinBounds, Lands, RecordsOf, TrafficOf, Count;
      var o := Observed(direction, payload, at);
      if !ExactLine(payload) {
        failed := true;
        return false;
      }
      ok := WriteEntry(Heard(o), writes);
      if ok {
        ghost var before := TrafficOf(old(log));
        TrafficGrows(old(log), Heard(o));
        CountGrows(before, o, Stdin);
        CountGrows(before, o, Stdout);
        protocolLines := protocolLines + 1;
        if direction == Stdin { stdinLines := stdinLines + 1; } else { stdoutLines := stdoutLines + 1; }
      }
    }

    /** The end of finish: syncs, reads the file back and compares it with the running digest. */
    method Seal(after: AfterFooter) returns (sealed: Option<seq<Byte>>)
      requires Valid() && !failed && !closed
      modifies this`position, this`failed, this`complete, this`closed
      ensures Valid()
      ensures View() == Judged(old(View()), digest, after)
      ensures sealed == if Agrees(after, digest) && after.closes then Some(after.readBack) else None
      ensures position == old(position) || (after.Raised? && after.seekedTo.Some?)
    {
      hide EncodeAll, WithinBounds, RecordsOf, ExactTraffic, Count, TrafficOf;
      match after {
        case Raised(seekedTo) =>
          if seekedTo.Some? {
            position := if seekedTo.value < |file| then seekedTo.value else |file|;
          }
          return None;
        case Compared(sameFile, readBack, closes) =>
          if !sameFile || |readBack| != bytesWritten || readBack != digest {
            failed := true;
            return None;
          }
          complete := true;
          if !closes { return None; }
          closed := true;
          return Some(readBack);
      }
    }

    /**
     * finish: writes the footer, then reads the file back and compares it with the running digest. It
     * returns exactly when it seals; and with nobody else writing to the file, never after the offset
     * was lost.
     */
    method Finish(ended: Option<int>, threadId: string, initialTurn: string, turns: nat, harness: string,
                  writes: seq<int>, after: AfterFooter) returns (sealed: Option<seq<Byte>>)
      requires Valid()
      modifies this
      ensures Valid() && Opening() == old(Opening())
      ensures var call := FinishCall(ended, threadId, initialTurn, turns, harness, writes, after);
              && View() == Step(Opening(), old(View()), call)
              && (sealed.Some? <==> Seals(Opening(), old(View()), call))
      ensures sealed.Some? ==>
                && (1 <= |threadId| <= 256) && (1 <= |initialTurn| <= 256) && (0 < turns < 101)
                && |harness| == 64 && (forall c | c in harness :: c in "0123456789abcdef")
                && Count(TrafficOf(log), Stdin) >= 1 && Count(TrafficOf(log), Stdout) >= 1
      ensures sealed.Some? ==>
                && complete && closed && !failed
                && sealed.value == after.readBack == FileOf(Opening(), log)
                && WithinBounds(codec, RecordsOf(identity, started, log)) && ExactTraffic(TrafficOf(log))
                && (codec.Lawful() && after.readBack == file ==> old(position == bytesWritten))
      ensures RaisesAfterFooter(Opening(), old(View()), FinishCall(ended, threadId, initialTurn, turns, harness, writes, after))
              && !(after.Raised? && after.seekedTo.Some?) && old(position == bytesWritten) ==>
                file == digest && position == bytesWritten
    {
      hide Encode, EncodeAll, WithinBounds, ExactLine, Room, Suffices, Sealable, RecordsOf, TrafficOf, Count;
      ghost var call := FinishCall(ended, threadId, initialTurn, turns, harness, writes, after);
      if failed { return None; }
      var closing := Closing(protocolLines, stdinLines, stdoutLines, threadId, initialTurn, turns, harness, CodexStdio);
      SealableIff(closing);
      assert closing == ClosingFor(View(), call);
      if !Sealable(closing) {
        failed := true;
        return None;
      }
      var ok := WriteEntry(Footed(ended, closing), writes);
      if !ok { return None; }
      TrafficGrows(old(log), Footed(ended, closing));
      assert TrafficOf(log) == TrafficOf(old(log));
      sealed := Seal(after);
    }

    /** abort: closes a journal without claiming completeness. */
    method Abort(closes: bool)
      requires Valid()
      modifies this
      ensures Valid() && Opening() == old(Opening())
      ensures View() == Step(Opening(), old(View()), AbortCall(closes))
      ensures file == old(file)
    {
      if closed { return; }
      closed := closes;
    }
  }
}
