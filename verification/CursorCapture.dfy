/** The controller's journal of Cursor hook receipts (benchmarks/cursor_capture.py, CursorCapture). */
module CursorCapture {
  import opened Common
  import opened CursorTiming
  import Text

  const MAX_RECEIPT: nat := 1_048_576
  const MAX_RECEIPTS: nat := 10_000
  const MAX_JOURNAL: nat := 64 * 1024 * 1024
  const MAX_REASONS: nat := 100
  const MAX_REASON: nat := 512

  // Characters of the encoded records outside their variable fields.
  const BINDING_FRAME: nat := 173
  const HEADER_FRAME: nat := 225
  const RECORD_FRAME: nat := 129
  const FOOTER_FRAME: nat := 282

  datatype Binding = Binding(runId: string, arm: string, task: string, workspace: string, nonce: string, promptSha: string)

  /** A controller clock reading: wall and monotonic nanoseconds, and the length of the wall time as text. */
  datatype Stamp = Stamp(wall: nat, monotonic: nat, isoSize: nat)

  /** What was handed to record: a receipt that passes every check, or why not and whether its binding is foreign. */
  datatype Submission =
    | Passed(receipt: Receipt)
    | Failed(stopId: Option<string>, message: string, foreign: bool)

  /** A write either lands whole, or leaves some of the record behind. */
  datatype Write = Written | WriteFailed(torn: nat, message: string)

  predicate Checked(r: Receipt) {
    LowerHex(r.id, 32) && 0 < r.clock < 0x8000_0000_0000_0000 && 0 < r.wall < 0x8000_0000_0000_0000
    && r.identity != [] && r.size <= MAX_RECEIPT
  }

  function StopId(s: Submission): Option<string> {
    if s.Passed? then Some(s.receipt.id) else s.stopId
  }

  datatype Evidence = Evidence(hashed: bool, span: Option<Span>, receipts: nat, reasons: seq<string>)

  /** bytes is what the capture counts as written; file is what is on disk. */
  datatype Capture = Capture(receipts: seq<Receipt>, reasons: seq<string>, invalidated: bool, sequence: nat, bytes: nat,
                             file: nat, finished: Option<Evidence>)

  function Cleaned(reason: string): string {
    var stripped := Text.Strip(if reason == "" then "capture invalidated" else reason);
    if |stripped| > MAX_REASON then stripped[..MAX_REASON] else stripped
  }

  function Noted(reasons: seq<string>, reason: string): seq<string> {
    var cleaned := Cleaned(reason);
    if cleaned != "" && cleaned !in reasons && |reasons| < MAX_REASONS then reasons + [cleaned] else reasons
  }

  function Marked(c: Capture, reason: string): Capture {
    if c.finished.Some? then c else c.(invalidated := true, reasons := Noted(c.reasons, reason))
  }

  // ----- sizes -----

  function BindingSize(b: Binding): nat {
    BINDING_FRAME + Text.Utf8StringSize(b.runId) + Text.Utf8StringSize(b.arm) + Text.Utf8StringSize(b.task)
    + Text.Utf8StringSize(b.workspace)
  }

  function StampSize(t: Stamp): nat {
    Text.DecimalSize(t.wall) + Text.DecimalSize(t.monotonic) + t.isoSize + 2
  }

  function HeaderSize(b: Binding, t: Stamp): nat {
    HEADER_FRAME + Text.DecimalSize(0) + BindingSize(b) + StampSize(t) + 1
  }

  function RecordSize(b: Binding, sequence: nat, r: Receipt): nat {
    RECORD_FRAME + Text.DecimalSize(sequence) + BindingSize(b) + r.size + 1
  }

  function ReasonsSize(reasons: seq<string>): nat {
    if reasons == [] then 2
    else ReasonsSize(reasons[..|reasons| - 1]) + Text.Utf8StringSize(reasons[|reasons| - 1]) + if |reasons| > 1 then 1 else 0
  }

  function TerminalSize(terminal: Option<string>): nat {
    if terminal.Some? then Text.Utf8StringSize(terminal.value) else 4
  }

  function FooterSize(b: Binding, c: Capture, terminal: Option<string>, t: Stamp): nat {
    FOOTER_FRAME + Text.DecimalSize(c.sequence) + BindingSize(b) + StampSize(t) + Text.DecimalSize(|c.receipts|)
    + TerminalSize(terminal) + ReasonsSize(c.reasons) + 1
  }

  const BOUND_MESSAGE: string := "Cursor capture exceeds the aggregate journal bound"

  /** _append: the bound is checked against counted bytes, and only a whole write is counted. */
  function Appended(c: Capture, size: nat, limit: int, write: Write): Result<Capture, (Capture, string)> {
    if c.bytes + size > limit then Err((c, BOUND_MESSAGE))
    else match write {
      case Written => Ok(c.(bytes := c.bytes + size, file := c.file + size, sequence := c.sequence + 1))
      case WriteFailed(torn, message) => Err((c.(file := c.file + if torn < size then torn else size), message))
    }
  }

  datatype Event =
    | Record(submission: Submission, write: Write)
    | InvalidateEvent(reason: string)
    | Finish(terminal: Option<string>, stamp: Stamp, write: Write, verified: bool, closed: bool)

  function Recorded(c: Capture, b: Binding, s: Submission, write: Write): Capture {
    if c.finished.Some? then c
    else
      var known := if StopId(s).Some? then Find(c.receipts, StopId(s).value) else None;
      if known.Some? then
        if s.Passed? && Checked(s.receipt) && s.receipt == known.value then c
        else Marked(c, "conflicting duplicate Cursor receipt")
      else if s.Failed? then c.(reasons := Noted(c.reasons, s.message), invalidated := c.invalidated || !s.foreign)
      else if !Checked(s.receipt) then c.(reasons := Noted(c.reasons, "receipt is invalid"), invalidated := true)
      else if |c.receipts| >= MAX_RECEIPTS then Marked(c, "Cursor receipt count exceeds the capture bound")
      else match Appended(c, RecordSize(b, c.sequence, s.receipt), MAX_JOURNAL - MAX_RECEIPT, write) {
        case Err((d, message)) => Marked(d, message)
        case Ok(d) => d.(receipts := d.receipts + [s.receipt])
      }
  }

  /** The journal hash holds only when the file has exactly the counted bytes. */
  function Verified(c: Capture, verified: bool): bool {
    verified && c.file == c.bytes && 0 < c.file <= MAX_JOURNAL
  }

  /** finish up to the footer: the timing, and why there is none. */
  function Timed(c: Capture, b: Binding, terminal: Option<string>): (Capture, Option<Span>) {
    match Timing(c.receipts, c.invalidated, terminal, b.promptSha) {
      case Ok(span) => (c, Some(span))
      case Err(why) => (c.(reasons := Noted(c.reasons, Explained(why))), None)
    }
  }

  /** What finish does with the outcome of appending the footer. */
  function FooterOrMark(footer: Result<Capture, (Capture, string)>): Capture {
    match footer {
      case Ok(d) => d
      case Err((d, message)) => Marked(d, "capture footer unavailable: " + message)
    }
  }

  function Finished(c: Capture, b: Binding, terminal: Option<string>, t: Stamp, write: Write, verified: bool, closed: bool): Capture {
    if c.finished.Some? then c
    else
      var (timed, span) := Timed(c, b, terminal);
      var footer := Appended(timed, FooterSize(b, timed, terminal, t), MAX_JOURNAL, write);
      var d := FooterOrMark(footer);
      var hashed := Verified(d, verified);
      var e := if hashed then d else Marked(d, "capture hash unavailable");
      var f := if closed then e else Marked(e, "capture close failed");
      var kept := if footer.Ok? && hashed && closed then span else None;
      f.(finished := Some(Evidence(hashed, kept, |f.receipts|, f.reasons)))
  }

  function Step(c: Capture, b: Binding, e: Event): Capture {
    match e {
      case Record(s, write) => Recorded(c, b, s, write)
      case InvalidateEvent(reason) => Marked(c, reason)
      case Finish(terminal, t, write, verified, closed) => Finished(c, b, terminal, t, write, verified, closed)
    }
  }

  function Explained(why: Unavailable): string {
    match why {
      case Invalidated => "capture evidence was invalidated"
      case NoReceipts => "capture contains no valid hook receipts"
      case ClocksTie => "receipt monotonic clocks do not establish a strict order"
      case WallReverses => "receipt wall clocks reverse chronological order"
      case IdentityChanged => "receipt identity changed during the capture"
      case NoPromptRelease => "capture has no prompt-release receipt"
      case WorkedBeforePrompt => "worker activity precedes the benchmark prompt release"
      case PromptUnbound => "earliest prompt release does not bind the benchmark task"
      case NoTerminalId => "terminal stop receipt was not supplied"
      case TerminalInvalid => "terminal stop receipt is missing or invalid"
      case TerminalNotLast => "terminal stop is not the last relevant receipt"
      case TerminalForeign => "terminal stop identity does not match task start"
      case TerminalNotAfter => "terminal stop does not follow task start"
      case TerminalWallEarlier => "terminal wall clock precedes task start"
      case TooLong => "task execution exceeds the one-day timing bound"
    }
  }

  /** A capture as the constructor leaves it: an empty journal and its header. */
  function Opened(b: Binding, t: Stamp): Capture {
    Capture([], [], false, 1, HeaderSize(b, t), HeaderSize(b, t), None)
  }

  // ----- what a binding and a clock may be -----

  predicate BoundedText(s: string) {
    s != "" && s == Text.Strip(s) && |s| <= 256 && forall i | 0 <= i < |s| :: s[i] >= ' '
  }

  /** The binding the constructor accepts. */
  predicate ValidBinding(b: Binding) {
    BoundedText(b.runId) && BoundedText(b.arm) && BoundedText(b.task) && LowerHex(b.nonce, 32) && LowerHex(b.promptSha, 64)
  }

  /** A bounded text is a short line without controls that neither begins nor ends with white space. */
  lemma BoundedTextIff(s: string)
    ensures BoundedText(s) <==>
              1 <= |s| <= 256 && !Text.IsSpace(s[0]) && !Text.IsSpace(s[|s| - 1]) && forall c | c in s :: 32 <= c as int
  {
    hide Text.IsSpace, Text.Strip;
    Text.StripsNothingIff(s);
    assert forall i | 0 <= i < |s| :: s[i] in s;
  }

  lemma ValidBindingIff(b: Binding)
    ensures ValidBinding(b) <==>
              && (forall s | s in [b.runId, b.arm, b.task] :: BoundedText(s))
              && |b.nonce| == 32 && |b.promptSha| == 64 && forall c | c in b.nonce + b.promptSha :: c in "0123456789abcdef"
  {
    hide BoundedText, LowerHex;
    LowerHexIff(b.nonce, 32);
    LowerHexIff(b.promptSha, 64);
    var texts := [b.runId, b.arm, b.task];
    assert texts[0] == b.runId && texts[1] == b.arm && texts[2] == b.task;
  }

  /** The same with a workspace path of bounded length. */
  predicate BoundBinding(b: Binding) {
    ValidBinding(b) && |b.workspace| <= 100_000
  }

  predicate BoundStamp(t: Stamp) {
    t.wall < 10_000_000_000_000_000_000 && t.monotonic < 10_000_000_000_000_000_000 && t.isoSize <= 32
  }

  /** What every sequence of calls keeps. */
  ghost predicate Inv(c: Capture) {
    && DistinctIds(c.receipts) && (forall i | 0 <= i < |c.receipts| :: Checked(c.receipts[i]))
    && |c.receipts| <= MAX_RECEIPTS
    && ReasonsOk(c.reasons)
    && c.bytes <= c.file
    && (c.finished.None? ==> c.sequence == |c.receipts| + 1)
    && c.bytes <= MAX_JOURNAL
    && (c.file == c.bytes || c.invalidated)
    && (c.finished.Some? && c.finished.value.hashed ==> c.file == c.bytes)
    && (c.finished.Some? && c.finished.value.span.Some? ==> c.finished.value.hashed)
  }

  ghost predicate ReasonsOk(reasons: seq<string>) {
    && |reasons| <= MAX_REASONS
    && (forall i | 0 <= i < |reasons| :: 0 < |reasons[i]| <= MAX_REASON)
    && (forall i, j | 0 <= i < j < |reasons| :: reasons[i] != reasons[j])
  }

  lemma NotedOk(reasons: seq<string>, reason: string)
    requires ReasonsOk(reasons)
    ensures ReasonsOk(Noted(reasons, reason))
  {
    hide Text.Strip;
  }

  // ----- every sequence of calls -----

  lemma AppendedKeeps(c: Capture, size: nat, limit: int, write: Write)
    ensures var r := Appended(c, size, limit, write);
            var d := if r.Ok? then r.value else r.error.0;
            && d == c.(bytes := d.bytes, file := d.file, sequence := d.sequence)
            && (r.Ok? <==> c.bytes + size <= limit && write.Written?)
            && (r.Ok? ==> d.bytes == c.bytes + size && d.file == c.file + size && d.sequence == c.sequence + 1)
            && (r.Err? ==> d.bytes == c.bytes && d.sequence == c.sequence && d.file >= c.file)
  {
  }

  lemma InvalidateKeeps(c: Capture, reason: string)
    requires Inv(c) || (c.finished.None? && Inv(c.(invalidated := true)))
    ensures var d := Marked(c, reason);
            && Inv(d) && d == c.(invalidated := d.invalidated, reasons := d.reasons)
            && (c.finished.None? ==> d.invalidated) && (c.invalidated ==> d.invalidated)
  {
    hide Noted, ReasonsOk;
    NotedOk(c.reasons, reason);
  }

  lemma AddedReceipt(rs: seq<Receipt>, r: Receipt)
    requires DistinctIds(rs) && Find(rs, r.id).None?
    ensures DistinctIds(rs + [r])
  {
  }

  lemma RecordedKeeps(c: Capture, b: Binding, s: Submission, write: Write)
    requires Inv(c)
    ensures Inv(Recorded(c, b, s, write))
  {
    hide Noted, ReasonsOk, Checked, RecordSize, Appended, Find, DistinctIds, Marked;
    if c.finished.None? {
      InvalidateKeeps(c, "conflicting duplicate Cursor receipt");
      InvalidateKeeps(c, "Cursor receipt count exceeds the capture bound");
      if s.Failed? {
        NotedOk(c.reasons, s.message);
      } else {
        NotedOk(c.reasons, "receipt is invalid");
        AppendedKeeps(c, RecordSize(b, c.sequence, s.receipt), MAX_JOURNAL - MAX_RECEIPT, write);
        var r := Appended(c, RecordSize(b, c.sequence, s.receipt), MAX_JOURNAL - MAX_RECEIPT, write);
        if r.Err? {
          InvalidateKeeps(r.error.0, r.error.1);
        } else if Find(c.receipts, s.receipt.id).None? {
          AddedReceipt(c.receipts, s.receipt);
        }
      }
    }
  }

  lemma TimedKeeps(c: Capture, b: Binding, terminal: Option<string>)
    requires Inv(c) && c.finished.None?
    ensures var (d, span) := Timed(c, b, terminal);
            && Inv(d) && d == c.(reasons := d.reasons)
            && (span.Some? ==> Timing(c.receipts, c.invalidated, terminal, b.promptSha) == Ok(span.value))
            && (c.invalidated ==> span.None?)
  {
    hide Noted, ReasonsOk, DistinctIds, InOrder, Explained;
    var t := Timing(c.receipts, c.invalidated, terminal, b.promptSha);
    if t.Err? { NotedOk(c.reasons, Explained(t.error)); }
  }

  /** A span in the evidence was derived from the receipts kept. */
  ghost predicate Honest(c: Capture, b: Binding) {
    c.finished.Some? && c.finished.value.span.Some? ==>
      && !c.invalidated
      && exists terminal :: Timing(c.receipts, false, terminal, b.promptSha) == Ok(c.finished.value.span.value)
  }

  /** The stages of finish, each from the one before. */
  lemma FinishedKeeps(c: Capture, b: Binding, terminal: Option<string>, t: Stamp, write: Write, verified: bool, closed: bool)
    requires Inv(c) && Honest(c, b)
    ensures var f := Finished(c, b, terminal, t, write, verified, closed);
            && Inv(f) && Honest(f, b) && f.finished.Some?
            && (c.finished.None? && c.invalidated ==> f.finished.value.span.None?)
  {
    hide Noted, ReasonsOk, DistinctIds, FooterSize, Appended, Marked, Timed, Timing, Checked;
    if c.finished.None? {
      TimedKeeps(c, b, terminal);
      var (timed, span) := Timed(c, b, terminal);
      var size := FooterSize(b, timed, terminal, t);
      AppendedKeeps(timed, size, MAX_JOURNAL, write);
      var footer := Appended(timed, size, MAX_JOURNAL, write);
      var d := FooterOrMark(footer);
      FooterKeeps(timed, footer);
      var hashed := Verified(d, verified);
      var e := if hashed then d else Marked(d, "capture hash unavailable");
      LooseKeeps(d, "capture hash unavailable");
      var f := if closed then e else Marked(e, "capture close failed");
      LooseKeeps(e, "capture close failed");
      if footer.Ok? && hashed && closed && span.Some? {
        assert Timing(f.receipts, false, terminal, b.promptSha) == Ok(span.value);
      }
    }
  }

  /** The invariant without the reserve, which the footer has just used. */
  ghost predicate Loose(c: Capture) {
    && DistinctIds(c.receipts) && (forall i | 0 <= i < |c.receipts| :: Checked(c.receipts[i]))
    && |c.receipts| <= MAX_RECEIPTS && ReasonsOk(c.reasons) && c.bytes <= c.file && c.bytes <= MAX_JOURNAL
    && (c.file == c.bytes || c.invalidated) && c.finished.None?
  }

  /** Marking also makes up for bytes a failing write left. */
  lemma LooseKeeps(c: Capture, reason: string)
    requires Loose(c.(invalidated := true))
    ensures Loose(Marked(c, reason)) && Marked(c, reason).invalidated
    ensures var d := Marked(c, reason); d == c.(invalidated := true, reasons := d.reasons)
  {
    hide Noted, ReasonsOk, DistinctIds, Checked;
    NotedOk(c.reasons, reason);
  }

  lemma FooterKeeps(timed: Capture, footer: Result<Capture, (Capture, string)>)
    requires Inv(timed) && timed.finished.None?
    requires var d := if footer.Ok? then footer.value else footer.error.0;
             && d == timed.(bytes := d.bytes, file := d.file, sequence := d.sequence)
             && d.bytes <= d.file && d.bytes <= MAX_JOURNAL && (footer.Ok? ==> d.file - d.bytes == timed.file - timed.bytes)
    ensures var d := FooterOrMark(footer);
            && Loose(d) && d.receipts == timed.receipts && (timed.invalidated ==> d.invalidated)
            && (footer.Ok? ==> d == footer.value)
  {
    hide Noted, ReasonsOk, DistinctIds, Checked, Marked;
    if footer.Err? {
      LooseKeeps(footer.error.0, "capture footer unavailable: " + footer.error.1);
    }
  }

  lemma StepKeeps(c: Capture, b: Binding, e: Event)
    requires Inv(c) && Honest(c, b)
    ensures Inv(Step(c, b, e)) && Honest(Step(c, b, e), b)
  {
    hide Inv, Recorded, Marked, Finished, Timing;
    match e {
      case Record(s, write) =>
        RecordedKeeps(c, b, s, write);
        RecordedFinished(c, b, s, write);
      case InvalidateEvent(reason) =>
        InvalidateKeeps(c, reason);
        InvalidatedFinished(c, reason);
      case Finish(terminal, t, write, verified, closed) =>
        FinishedKeeps(c, b, terminal, t, write, verified, closed);
    }
  }

  lemma RecordedFinished(c: Capture, b: Binding, s: Submission, write: Write)
    ensures c.finished.Some? ==> Recorded(c, b, s, write) == c
    ensures c.finished.None? ==> Recorded(c, b, s, write).finished.None?
    ensures c.invalidated ==> Recorded(c, b, s, write).invalidated
  {
    hide Noted, Checked, RecordSize, Find;
  }

  lemma InvalidatedFinished(c: Capture, reason: string)
    ensures c.finished.Some? ==> Marked(c, reason) == c
    ensures c.finished.None? ==> Marked(c, reason).finished.None?
    ensures c.invalidated ==> Marked(c, reason).invalidated
  {
    hide Noted;
  }

  function RunFrom(c: Capture, b: Binding, events: seq<Event>): Capture {
    if events == [] then c else Step(RunFrom(c, b, events[..|events| - 1]), b, events[|events| - 1])
  }

  lemma {:induction false} RunKeeps(c: Capture, b: Binding, events: seq<Event>)
    requires Inv(c) && Honest(c, b)
    ensures Inv(RunFrom(c, b, events)) && Honest(RunFrom(c, b, events), b)
  {
    hide Inv, Honest, Step;
    if events != [] {
      RunKeeps(c, b, events[..|events| - 1]);
      StepKeeps(RunFrom(c, b, events[..|events| - 1]), b, events[|events| - 1]);
    }
  }

  // ----- sizes -----

  lemma BindingSizeBound(b: Binding)
    requires BoundBinding(b)
    ensures BindingSize(b) <= 605_000
  {
    hide Text.Strip, LowerHex;
    Text.Utf8CharsSizeBound(b.runId);
    Text.Utf8CharsSizeBound(b.arm);
    Text.Utf8CharsSizeBound(b.task);
    Text.Utf8CharsSizeBound(b.workspace);
  }

  lemma StampSizeBound(t: Stamp)
    requires BoundStamp(t)
    ensures StampSize(t) <= 80
  {
    assert Text.Power10(19) == 10_000_000_000_000_000_000 by {
      assert Text.Power10(5) == 100_000;
      assert Text.Power10(10) == 10_000_000_000;
      assert Text.Power10(15) == 1_000_000_000_000_000;
    }
    Text.DecimalSizeBound(t.wall, 19);
    Text.DecimalSizeBound(t.monotonic, 19);
  }

  lemma {:induction false} ReasonsSizeBound(reasons: seq<string>)
    requires forall i | 0 <= i < |reasons| :: |reasons[i]| <= MAX_REASON
    ensures ReasonsSize(reasons) <= 2 + 3_075 * |reasons|
  {
    if reasons != [] {
      ReasonsSizeBound(reasons[..|reasons| - 1]);
      Text.Utf8CharsSizeBound(reasons[|reasons| - 1]);
    }
  }

  lemma CountSizeBound(n: nat)
    requires n <= MAX_RECEIPTS + 1
    ensures Text.DecimalSize(n) <= 5
  {
    assert Text.Power10(5) == 100_000;
    Text.DecimalSizeBound(n, 5);
  }

  lemma OpenedKeeps(b: Binding, t: Stamp)
    requires HeaderSize(b, t) <= MAX_JOURNAL
    ensures Inv(Opened(b, t)) && Honest(Opened(b, t), b)
  {
    hide HeaderSize;
  }

  /** The header of a bounded binding is far below the reserve. */
  lemma HeaderSizeBound(b: Binding, t: Stamp)
    requires BoundBinding(b) && BoundStamp(t)
    ensures HeaderSize(b, t) <= MAX_JOURNAL - MAX_RECEIPT
  {
    hide BindingSize, StampSize;
    BindingSizeBound(b);
    StampSizeBound(t);
  }

  /** An unfinished capture leaves its footer the reserve. */
  predicate Reserved(c: Capture) {
    c.finished.None? ==> c.bytes <= MAX_JOURNAL - MAX_RECEIPT
  }

  lemma StepReserved(c: Capture, b: Binding, e: Event)
    requires Reserved(c)
    ensures Reserved(Step(c, b, e))
  {
    hide Noted, RecordSize, Find, Checked, Finished;
    match e {
      case Record(s, write) => RecordedFinished(c, b, s, write);
      case InvalidateEvent(reason) => InvalidatedFinished(c, reason);
      case Finish(terminal, t, write, verified, closed) => FinishedIs(c, b, terminal, t, write, verified, closed);
    }
  }

  lemma FinishedIs(c: Capture, b: Binding, terminal: Option<string>, t: Stamp, write: Write, verified: bool, closed: bool)
    ensures Finished(c, b, terminal, t, write, verified, closed).finished.Some?
  {
    hide Noted, FooterSize, Timing, Appended, Marked, Timed;
  }

  lemma {:induction false} RunReserved(c: Capture, b: Binding, events: seq<Event>)
    requires Reserved(c)
    ensures Reserved(RunFrom(c, b, events))
  {
    if events != [] {
      hide Step, Reserved;
      RunReserved(c, b, events[..|events| - 1]);
      StepReserved(RunFrom(c, b, events[..|events| - 1]), b, events[|events| - 1]);
    }
  }

  // ----- the records written out -----

  function PrintedBinding(b: Binding): seq<int> {
    Text.Ascii("{\"arm\":") + Text.Utf8Quoted(b.arm) + Text.Ascii(",\"capture_nonce\":") + Text.Utf8Quoted(b.nonce)
    + Text.Ascii(",\"prompt_sha256\":") + Text.Utf8Quoted(b.promptSha) + Text.Ascii(",\"run_id\":")
    + Text.Utf8Quoted(b.runId) + Text.Ascii(",\"task\":") + Text.Utf8Quoted(b.task) + Text.Ascii(",\"workspace\":")
    + Text.Utf8Quoted(b.workspace) + Text.Ascii("}")
  }

  /** iso is the text of the wall time. */
  function PrintedStamp(t: Stamp, iso: seq<int>): seq<int> {
    Text.Ascii(",\"captured_at\":\"") + iso + Text.Ascii("\",\"captured_at_ns\":") + Text.Ascii(Text.Decimal(t.wall))
    + Text.Ascii(",\"captured_monotonic_ns\":") + Text.Ascii(Text.Decimal(t.monotonic))
    + Text.Ascii(",\"complete\":false,\"coverage\":\"partial\"")
  }

  const SCHEMA: string := ",\"schema\":\"pex.cursor-observed-capture.v1\",\"sequence\":"

  function PrintedHeader(b: Binding, t: Stamp, iso: seq<int>): seq<int> {
    Text.Ascii("{\"binding\":") + PrintedBinding(b) + PrintedStamp(t, iso)
    + Text.Ascii(",\"record_type\":\"capture_header\"") + Text.Ascii(SCHEMA) + Text.Ascii(Text.Decimal(0))
    + Text.Ascii(",\"source\":\"benchmark_controller\"}") + Text.Ascii("\n")
  }

  /** receipt is the canonical encoding of the receipt. */
  function PrintedRecord(b: Binding, sequence: nat, receipt: seq<int>): seq<int> {
    Text.Ascii("{\"binding\":") + PrintedBinding(b) + Text.Ascii(",\"receipt\":") + receipt
    + Text.Ascii(",\"record_type\":\"hook_receipt\"") + Text.Ascii(SCHEMA) + Text.Ascii(Text.Decimal(sequence))
    + Text.Ascii(",\"source\":\"cursor_hook\"}") + Text.Ascii("\n")
  }

  function PrintedItems(texts: seq<string>): seq<int> {
    if texts == [] then []
    else if |texts| == 1 then Text.Utf8Quoted(texts[0])
    else PrintedItems(texts[..|texts| - 1]) + Text.Ascii(",") + Text.Utf8Quoted(texts[|texts| - 1])
  }

  function PrintedTerminal(terminal: Option<string>): seq<int> {
    if terminal.Some? then Text.Utf8Quoted(terminal.value) else Text.Ascii("null")
  }

  function PrintedFooter(b: Binding, c: Capture, terminal: Option<string>, t: Stamp, iso: seq<int>): seq<int> {
    Text.Ascii("{\"binding\":") + PrintedBinding(b) + PrintedStamp(t, iso)
    + Text.Ascii(",\"observed_receipt_count\":") + Text.Ascii(Text.Decimal(|c.receipts|))
    + Text.Ascii(",\"reasons\":[") + PrintedItems(c.reasons) + Text.Ascii("],\"record_type\":\"capture_footer\"")
    + Text.Ascii(SCHEMA) + Text.Ascii(Text.Decimal(c.sequence))
    + Text.Ascii(",\"source\":\"benchmark_controller\",\"terminal_stop_id\":") + PrintedTerminal(terminal)
    + Text.Ascii("}") + Text.Ascii("\n")
  }

  /** Hexadecimal digits need no escape. */
  lemma {:induction false} HexTextSize(s: string)
    requires forall i | 0 <= i < |s| :: HexDigit(s[i])
    ensures Text.Utf8CharsSize(s) == |s|
  {
    if s != "" { HexTextSize(s[1..]); }
  }

  lemma PrintedBindingSize(b: Binding)
    requires ValidBinding(b)
    ensures |PrintedBinding(b)| == BindingSize(b)
  {
    hide BoundedText, Text.Ascii, Text.Utf8Quoted, Text.Utf8CharsSize, HexDigit;
    Text.Utf8QuotedHasSize(b.arm);
    Text.Utf8QuotedHasSize(b.nonce);
    Text.Utf8QuotedHasSize(b.promptSha);
    Text.Utf8QuotedHasSize(b.runId);
    Text.Utf8QuotedHasSize(b.task);
    Text.Utf8QuotedHasSize(b.workspace);
    HexTextSize(b.nonce);
    HexTextSize(b.promptSha);
  }

  lemma {:induction false} PrintedItemsSize(texts: seq<string>)
    ensures |PrintedItems(texts)| + 2 == ReasonsSize(texts)
  {
    hide Text.Utf8Quoted, Text.Utf8CharsSize;
    if texts != [] {
      PrintedItemsSize(texts[..|texts| - 1]);
      Text.Utf8QuotedHasSize(texts[|texts| - 1]);
    }
  }

  lemma PrintedStampSize(t: Stamp, iso: seq<int>)
    requires |iso| == t.isoSize
    ensures |PrintedStamp(t, iso)| == StampSize(t) + 96
  {
    hide Text.Ascii, Text.Decimal, Text.DecimalSize;
    Text.DecimalHasSize(t.wall);
    Text.DecimalHasSize(t.monotonic);
  }

  /** The bounds are checked against the lengths of the records as they are written. */
  lemma HeaderHasSize(b: Binding, t: Stamp, iso: seq<int>)
    requires ValidBinding(b) && |iso| == t.isoSize
    ensures |PrintedHeader(b, t, iso)| == HeaderSize(b, t)
  {
    hide ValidBinding, Text.Ascii, Text.Decimal, Text.DecimalSize, PrintedBinding, PrintedStamp, BindingSize, StampSize;
    PrintedBindingSize(b);
    PrintedStampSize(t, iso);
    Text.DecimalHasSize(0);
  }

  lemma RecordHasSize(b: Binding, sequence: nat, r: Receipt, receipt: seq<int>)
    requires ValidBinding(b) && |receipt| == r.size
    ensures |PrintedRecord(b, sequence, receipt)| == RecordSize(b, sequence, r)
  {
    hide ValidBinding, Text.Ascii, Text.Decimal, Text.DecimalSize, PrintedBinding, BindingSize;
    PrintedBindingSize(b);
    Text.DecimalHasSize(sequence);
  }

  lemma PrintedTerminalSize(terminal: Option<string>)
    ensures |PrintedTerminal(terminal)| == TerminalSize(terminal)
  {
    if terminal.Some? { Text.Utf8QuotedHasSize(terminal.value); }
  }

  lemma FooterHasSize(b: Binding, c: Capture, terminal: Option<string>, t: Stamp, iso: seq<int>)
    requires ValidBinding(b) && |iso| == t.isoSize
    ensures |PrintedFooter(b, c, terminal, t, iso)| == FooterSize(b, c, terminal, t)
  {
    hide ValidBinding, Text.Ascii, Text.Decimal, Text.DecimalSize, PrintedBinding, PrintedStamp, BindingSize, StampSize;
    hide ReasonsSize, PrintedItems, TerminalSize, PrintedTerminal;
    PrintedBindingSize(b);
    PrintedStampSize(t, iso);
    PrintedItemsSize(c.reasons);
    PrintedTerminalSize(terminal);
    Text.DecimalHasSize(|c.receipts|);
    Text.DecimalHasSize(c.sequence);
  }

  // ----- the object -----

  lemma MarkedReceipts(c: Capture, reason: string)
    ensures Marked(c, reason).receipts == c.receipts && (Marked(c, reason).finished == c.finished)
    ensures Marked(c, reason).bytes == c.bytes && Marked(c, reason).file == c.file
  {
    hide Noted;
  }

  lemma {:induction false} FindAppended(rs: seq<Receipt>, r: Receipt)
    ensures forall id :: Find(rs + [r], id) ==
              if Find(rs, id).Some? then Find(rs, id) else if id == r.id then Some(r) else None
  {
    if rs == [] {
      assert rs + [r] == [r] && [r][1..] == [];
    } else {
      FindAppended(rs[1..], r);
      assert (rs + [r])[1..] == rs[1..] + [r];
    }
  }

  /** The controller's object; a receipt in receiptBytes stands for its canonical encoding. */
  class CursorCapture {
    const binding: Binding
    const live: bool
    var receipts: seq<Receipt>
    var receiptBytes: map<string, Receipt>
    var reasons: seq<string>
    var invalidated: bool
    var sequence: nat
    var bytesWritten: nat
    var file: nat
    var finished: Option<Evidence>

    function View(): Capture
      reads this
    {
      Capture(receipts, reasons, invalidated, sequence, bytesWritten, file, finished)
    }

    ghost predicate Indexed()
      reads this
    {
      forall id :: (if id in receiptBytes then Some(receiptBytes[id]) else None) == Find(receipts, id)
    }

    ghost predicate Valid()
      reads this
    {
      live && Inv(View()) && Honest(View(), binding) && Indexed()
    }

    /**
     * Validates the binding, creates the file and appends the header. When any of that raises, nothing is counted and
     * no capture begins; ready says that the path has no links and the new file is a regular one.
     */
    constructor (binding: Binding, t: Stamp, ready: bool, write: Write)
      ensures this.binding == binding
      ensures live <==> ValidBinding(binding) && ready && HeaderSize(binding, t) <= MAX_JOURNAL && write.Written?
      ensures live ==> View() == Opened(binding, t) && Valid()
      ensures !live ==> View() == Capture([], [], false, 0, 0, file, None)
                        && file == if ValidBinding(binding) && ready && HeaderSize(binding, t) <= MAX_JOURNAL
                                   then LeftOf(write, HeaderSize(binding, t)) else 0
    {
      hide ValidBinding, HeaderSize, Inv;
      this.binding := binding;
      live := ValidBinding(binding) && ready && HeaderSize(binding, t) <= MAX_JOURNAL && write.Written?;
      receipts, receiptBytes, reasons, invalidated, finished := [], map[], [], false, None;
      sequence, bytesWritten, file := 0, 0, 0;
      new;
      if ValidBinding(binding) && ready {
        var error := Append(HeaderSize(binding, t), MAX_JOURNAL, write);
        if error.None? { OpenedKeeps(binding, t); }
      }
    }

    method Reason(reason: string)
      modifies this`reasons
      ensures reasons == Noted(old(reasons), reason)
    {
      var cleaned := Cleaned(reason);
      if cleaned != "" && cleaned !in reasons && |reasons| < MAX_REASONS { reasons := reasons + [cleaned]; }
    }

    method Invalidate(reason: string)
      requires Valid()
      modifies this`reasons, this`invalidated
      ensures Valid() && View() == Step(old(View()), binding, InvalidateEvent(reason))
    {
      hide Noted, Inv, Honest;
      StepKeeps(View(), binding, InvalidateEvent(reason));
      Mark(reason);
    }

    method Mark(reason: string)
      modifies this`reasons, this`invalidated
      ensures View() == Marked(old(View()), reason)
    {
      hide Noted;
      if finished.None? {
        invalidated := true;
        Reason(reason);
      }
    }

    /** The bound first, then the write; the error is the exception's message. */
    method Append(size: nat, limit: int, write: Write) returns (error: Option<string>)
      modifies this`bytesWritten, this`sequence, this`file
      ensures var r := Appended(old(View()), size, limit, write);
              if r.Ok? then error == None && View() == r.value else error == Some(r.error.1) && View() == r.error.0
    {
      if bytesWritten + size > limit { return Some(BOUND_MESSAGE); }
      match write {
        case WriteFailed(torn, message) =>
          file := file + if torn < size then torn else size;
          return Some(message);
        case Written =>
          file := file + size;
          bytesWritten := bytesWritten + size;
          sequence := sequence + 1;
          return None;
      }
    }

    method Record(s: Submission, write: Write) returns (appended: bool)
      requires Valid()
      modifies this
      ensures Valid() && View() == Step(old(View()), binding, Event.Record(s, write))
      ensures appended <==> s.Passed? && receipts == old(receipts) + [s.receipt]
      ensures !appended ==> receipts == old(receipts)
    {
      hide Noted, Inv, Honest, Checked, RecordSize, Find, Appended;
      StepKeeps(View(), binding, Event.Record(s, write));
      if finished.Some? { return false; }
      var id := StopId(s);
      if id.Some? && id.value in receiptBytes {
        if !(s.Passed? && Checked(s.receipt) && s.receipt == receiptBytes[id.value]) {
          Mark("conflicting duplicate Cursor receipt");
        }
        return false;
      }
      match s {
        case Failed(_, message, foreign) =>
          Reason(message);
          if !foreign { invalidated := true; }
          return false;
        case Passed(receipt) =>
          if !Checked(receipt) {
            Reason("receipt is invalid");
            invalidated := true;
            return false;
          }
          if |receipts| >= MAX_RECEIPTS {
            Mark("Cursor receipt count exceeds the capture bound");
            return false;
          }
          appended := AppendReceipt(receipt, write);
      }
    }

    method AppendReceipt(receipt: Receipt, write: Write) returns (appended: bool)
      requires finished.None? && Indexed() && Find(receipts, receipt.id).None?
      modifies this
      ensures Indexed()
      ensures View() == match Appended(old(View()), RecordSize(binding, old(sequence), receipt), MAX_JOURNAL - MAX_RECEIPT, write) {
                case Err((d, message)) => Marked(d, message)
                case Ok(d) => d.(receipts := d.receipts + [receipt])
              }
      ensures receipts == if appended then old(receipts) + [receipt] else old(receipts)
    {
      hide RecordSize, Appended, Marked, Find;
      AppendedKeeps(View(), RecordSize(binding, sequence, receipt), MAX_JOURNAL - MAX_RECEIPT, write);
      var error := Append(RecordSize(binding, sequence, receipt), MAX_JOURNAL - MAX_RECEIPT, write);
      if error.Some? {
        MarkedReceipts(View(), error.value);
        Mark(error.value);
        return false;
      }
      FindAppended(receipts, receipt);
      receipts := receipts + [receipt];
      receiptBytes := receiptBytes[receipt.id := receipt];
      return true;
    }

    method DeriveTiming(terminal: Option<string>) returns (span: Option<Span>)
      modifies this`reasons
      ensures (View(), span) == Timed(old(View()), binding, terminal)
    {
      hide Noted, Timing, Explained;
      var timing := Timing(receipts, invalidated, terminal, binding.promptSha);
      match timing {
        case Ok(derived) => return Some(derived);
        case Err(why) =>
          Reason(Explained(why));
          return None;
      }
    }

    method WriteFooter(terminal: Option<string>, t: Stamp, write: Write) returns (landed: bool)
      modifies this`reasons, this`invalidated, this`sequence, this`bytesWritten, this`file
      ensures var footer := Appended(old(View()), FooterSize(binding, old(View()), terminal, t), MAX_JOURNAL, write);
              && landed == footer.Ok?
              && View() == FooterOrMark(footer)
    {
      hide FooterSize, Appended, Marked;
      var error := Append(FooterSize(binding, View(), terminal, t), MAX_JOURNAL, write);
      if error.Some? { Mark("capture footer unavailable: " + error.value); }
      return error.None?;
    }

    method Finish(terminal: Option<string>, t: Stamp, write: Write, verified: bool, closed: bool) returns (evidence: Evidence)
      requires Valid()
      modifies this`reasons, this`invalidated, this`sequence, this`bytesWritten, this`file, this`finished
      ensures Valid() && View() == Step(old(View()), binding, Event.Finish(terminal, t, write, verified, closed))
      ensures finished == Some(evidence)
    {
      hide Inv, Honest, FooterSize, Find, Appended, Marked, Timed, FooterOrMark;
      StepKeeps(View(), binding, Event.Finish(terminal, t, write, verified, closed));
      if finished.Some? { return finished.value; }
      var span := DeriveTiming(terminal);
      var landed := WriteFooter(terminal, t, write);
      var hashed := Verified(View(), verified);
      if !hashed { Mark("capture hash unavailable"); }
      if !closed { Mark("capture close failed"); }
      evidence := Evidence(hashed, if landed && hashed && closed then span else None, |receipts|, reasons);
      finished := Some(evidence);
    }
  }

  // ----- main results -----

  /**
   * After any sequence of records and invalidations, whatever receipts, reasons and write failures it had, the footer
   * fits the space the records left for it, for every terminal id that is absent or 32 hexadecimal digits.
   */
  lemma FooterAlwaysFits(b: Binding, begun: Stamp, events: seq<Event>, terminal: Option<string>, t: Stamp, write: Write)
    requires BoundBinding(b) && BoundStamp(begun) && BoundStamp(t)
    requires terminal.Some? ==> LowerHex(terminal.value, 32)
    requires RunFrom(Opened(b, begun), b, events).finished.None?
    ensures var (c, _) := Timed(RunFrom(Opened(b, begun), b, events), b, terminal);
            && FooterSize(b, c, terminal, t) <= MAX_RECEIPT
            && c.bytes + FooterSize(b, c, terminal, t) <= MAX_JOURNAL
            && (Appended(c, FooterSize(b, c, terminal, t), MAX_JOURNAL, write).Ok? <==> write.Written?)
  {
    hide RunFrom, Honest, Timed, BindingSize, StampSize, ReasonsSize, DistinctIds, Checked;
    HeaderSizeBound(b, begun);
    OpenedKeeps(b, begun);
    RunKeeps(Opened(b, begun), b, events);
    RunReserved(Opened(b, begun), b, events);
    TimedKeeps(RunFrom(Opened(b, begun), b, events), b, terminal);
    var (c, _) := Timed(RunFrom(Opened(b, begun), b, events), b, terminal);
    BindingSizeBound(b);
    StampSizeBound(t);
    ReasonsSizeBound(c.reasons);
    CountSizeBound(c.sequence);
    CountSizeBound(|c.receipts|);
    TerminalSizeBound(terminal);
  }

  lemma TerminalSizeBound(terminal: Option<string>)
    requires terminal.Some? ==> |terminal.value| == 32
    ensures TerminalSize(terminal) <= 194
  {
    if terminal.Some? { Text.Utf8CharsSizeBound(terminal.value); }
  }

  /** What a failing write of one record leaves of it. */
  function LeftOf(write: Write, size: nat): nat {
    if write.Written? then 0 else if write.torn < size then write.torn else size
  }

  /** The event gets as far as writing: a new valid receipt, or the footer of an unfinished capture, within its limit. */
  predicate Reaches(c: Capture, b: Binding, e: Event) {
    c.finished.None? &&
    match e
    case Record(s, _) =>
      && s.Passed? && Find(c.receipts, s.receipt.id).None? && Checked(s.receipt) && |c.receipts| < MAX_RECEIPTS
      && c.bytes + RecordSize(b, c.sequence, s.receipt) <= MAX_JOURNAL - MAX_RECEIPT
    case InvalidateEvent(_) => false
    case Finish(terminal, t, _, _, _) =>
      c.bytes + FooterSize(b, Timed(c, b, terminal).0, terminal, t) <= MAX_JOURNAL
  }

  /** The bytes the event leaves in the file without counting them. */
  function Left(c: Capture, b: Binding, e: Event): nat {
    if !Reaches(c, b, e) then 0
    else match e
      case Record(s, write) => LeftOf(write, RecordSize(b, c.sequence, s.receipt))
      case InvalidateEvent(_) => 0
      case Finish(terminal, t, write, _, _) => LeftOf(write, FooterSize(b, Timed(c, b, terminal).0, terminal, t))
  }

  function LeftBy(c: Capture, b: Binding, events: seq<Event>): nat {
    if events == [] then 0
    else
      var n := |events| - 1;
      LeftBy(c, b, events[..n]) + Left(RunFrom(c, b, events[..n]), b, events[n])
  }

  // ----- what each call comes to -----

  /** All but the characters from i to j is white space, and those neither begin nor end with any. */
  ghost predicate Trimmed(text: string, i: nat, j: nat) {
    && i <= j <= |text| && (forall k | 0 <= k < i || j <= k < |text| :: Text.IsSpace(text[k]))
    && (i < j ==> !Text.IsSpace(text[i]) && !Text.IsSpace(text[j - 1]))
  }

  lemma TrimIs(text: string)
    ensures exists i: nat, j: nat :: Trimmed(text, i, j) && i <= j <= |text| && Text.Strip(text) == text[i..j]
  {
    hide Text.IsSpace, Text.Strip;
    Text.StripIs(text);
  }

  lemma CutAt(text: string, i: nat, j: nat)
    requires i <= j <= |text|
    ensures (if |text[i..j]| > MAX_REASON then text[i..j][..MAX_REASON] else text[i..j]) == text[i..if j <= i + 512 then j else i + 512]
  {
  }

  /** A reason is kept without the white space around it, cut at 512 characters; an absent one is named. */
  lemma CleanedIs(reason: string)
    ensures var text := if |reason| == 0 then "capture invalidated" else reason;
            exists i: nat, j: nat :: Trimmed(text, i, j) && Cleaned(reason) == text[i..if j <= i + 512 then j else i + 512]
  {
    hide Trimmed, Text.Strip;
    var text := if |reason| == 0 then "capture invalidated" else reason;
    assert reason == "" <==> |reason| == 0;
    TrimIs(text);
    var i: nat, j: nat :| Trimmed(text, i, j) && i <= j <= |text| && Text.Strip(text) == text[i..j];
    CutAt(text, i, j);
  }

  /** A receipt that passed validation has this form. */
  lemma CheckedIff(r: Receipt)
    ensures Checked(r) <==>
              && |r.id| == 32 && (forall c | c in r.id :: c in "0123456789abcdef")
              && 1 <= r.clock <= 9_223_372_036_854_775_807 && 1 <= r.wall <= 9_223_372_036_854_775_807
              && |r.identity| >= 1 && r.size <= 1024 * 1024
  {
    hide LowerHex;
    LowerHexIff(r.id, 32);
  }

  ghost predicate Met(receipts: seq<Receipt>, id: string) {
    exists r :: r in receipts && r.id == id
  }

  /**
   * What record keeps: a receipt is added exactly when the capture is unfinished, the receipt is valid and its id new,
   * there is room for it in the count and, before the reserve, in the journal, and it is written whole.
   */
  lemma RecordAddsIff(c: Capture, b: Binding, s: Submission, write: Write)
    ensures var d := Recorded(c, b, s, write);
            && (|d.receipts| > |c.receipts| <==>
                  && c.finished == None && s.Passed? && Checked(s.receipt) && !Met(c.receipts, s.receipt.id)
                  && |c.receipts| < 10_000
                  && c.bytes + RecordSize(b, c.sequence, s.receipt) <= 63 * 1024 * 1024
                  && write == Written)
            && (|d.receipts| > |c.receipts| ==>
                  d == c.(receipts := c.receipts + [s.receipt], sequence := c.sequence + 1,
                          bytes := c.bytes + RecordSize(b, c.sequence, s.receipt),
                          file := c.file + RecordSize(b, c.sequence, s.receipt)))
            && (|d.receipts| <= |c.receipts| ==>
                  d == c.(file := d.file, invalidated := d.invalidated, reasons := d.reasons))
  {
    hide Noted, RecordSize, Checked;
  }

  /**
   * What record invalidates: the same receipt again and a receipt bound to another capture change nothing but the
   * reasons; every other refusal invalidates the capture, each with its own reason.
   */
  lemma RecordRefusals(c: Capture, b: Binding, s: Submission, write: Write)
    requires c.finished.None? && Recorded(c, b, s, write).receipts == c.receipts
    ensures var d := Recorded(c, b, s, write);
            var known := match s { case Passed(r) => Met(c.receipts, r.id) case Failed(id, _, _) => id.Some? && Met(c.receipts, id.value) };
            && (s.Passed? && Checked(s.receipt) && DistinctIds(c.receipts) && s.receipt in c.receipts ==> d == c)
            && (known && !(s.Passed? && Checked(s.receipt) && s.receipt in c.receipts) ==>
                  d == c.(invalidated := true, reasons := Noted(c.reasons, "conflicting duplicate Cursor receipt")))
            && (!known && s.Failed? ==>
                  d == c.(invalidated := if s.foreign then c.invalidated else true, reasons := Noted(c.reasons, s.message)))
            && (!known && s.Passed? ==> d.invalidated)
            && (!known && s.Passed? && !Checked(s.receipt) ==>
                  d == c.(invalidated := true, reasons := Noted(c.reasons, "receipt is invalid")))
            && (!known && s.Passed? && Checked(s.receipt) && |c.receipts| >= 10_000 ==>
                  d == c.(invalidated := true, reasons := Noted(c.reasons, "Cursor receipt count exceeds the capture bound")))
            && (!known && s.Passed? && Checked(s.receipt) && |c.receipts| < 10_000 ==>
                  if c.bytes + RecordSize(b, c.sequence, s.receipt) > 63 * 1024 * 1024 then
                    d == c.(invalidated := true, reasons := Noted(c.reasons, "Cursor capture exceeds the aggregate journal bound"))
                  else
                    write.WriteFailed?
                    && d == c.(invalidated := true, reasons := Noted(c.reasons, write.message), file := c.file + LeftOf(write, RecordSize(b, c.sequence, s.receipt))))
  {
    hide Noted, RecordSize, Checked;
  }

  /**
   * What finish reports: a span exactly when one is derived from the receipts, the footer fits and is written whole, the
   * file holds the counted bytes and is read back unchanged, and the close succeeds. Every failure leaves its reason.
   */
  lemma FinishReportsIff(c: Capture, b: Binding, terminal: Option<string>, t: Stamp, write: Write, verified: bool, closed: bool)
    requires Inv(c) && c.finished.None?
    ensures var e := Finished(c, b, terminal, t, write, verified, closed).finished.value;
            var noted := Timed(c, b, terminal).0;
            var fits := c.bytes + FooterSize(b, noted, terminal, t) <= 64 * 1024 * 1024;
            && e.receipts == |c.receipts|
            && (e.span.Some? <==>
                  Timing(c.receipts, c.invalidated, terminal, b.promptSha).Ok? && fits && write.Written? && verified && c.file == c.bytes && closed)
            && (e.span.Some? ==> Timing(c.receipts, c.invalidated, terminal, b.promptSha) == Ok(e.span.value))
            && (e.hashed <==>
                  verified && c.file == c.bytes && (c.bytes > 0 || (fits && write.Written?))
                  && (fits && write.WriteFailed? ==> write.torn == 0))
  {
    hide Noted, FooterSize, Timing, Appended, Marked, Timed;
    var (timed, span) := Timed(c, b, terminal);
    TimedKeeps(c, b, terminal);
    TimedIff(c, b, terminal);
    var size := FooterSize(b, timed, terminal, t);
    assert size > 0 by { FooterPositive(b, timed, terminal, t); }
    AppendedCases(timed, size, MAX_JOURNAL, write);
    var footer := Appended(timed, size, MAX_JOURNAL, write);
    if footer.Err? { MarkedReceipts(footer.error.0, "capture footer unavailable: " + footer.error.1); }
    var d := FooterOrMark(footer);
    var e := if Verified(d, verified) then d else Marked(d, "capture hash unavailable");
    MarkedReceipts(d, "capture hash unavailable");
    MarkedReceipts(e, "capture close failed");
  }

  lemma TimedIff(c: Capture, b: Binding, terminal: Option<string>)
    ensures Timed(c, b, terminal).1.Some? <==> Timing(c.receipts, c.invalidated, terminal, b.promptSha).Ok?
  {
    hide Timing, Noted;
  }

  lemma FooterPositive(b: Binding, c: Capture, terminal: Option<string>, t: Stamp)
    ensures FooterSize(b, c, terminal, t) > 0
  {
  }

  lemma AppendedCases(c: Capture, size: nat, limit: int, write: Write)
    ensures var r := Appended(c, size, limit, write);
            && (r.Ok? <==> c.bytes + size <= limit && write.Written?)
            && (r.Ok? ==> r.value == c.(bytes := c.bytes + size, file := c.file + size, sequence := c.sequence + 1))
            && (r.Err? ==> r.error.0 == c.(file := c.file + if c.bytes + size <= limit then LeftOf(write, size) else 0))
            && (r.Err? ==> r.error.1 == if c.bytes + size > limit then BOUND_MESSAGE else write.message)
  {
  }

  lemma AppendedLeaves(c: Capture, size: nat, limit: int, write: Write)
    ensures var r := Appended(c, size, limit, write);
            var d := if r.Ok? then r.value else r.error.0;
            d.file - d.bytes == c.file - c.bytes + if c.bytes + size <= limit then LeftOf(write, size) else 0
  {
  }

  lemma RecordedLeaves(c: Capture, b: Binding, s: Submission, write: Write)
    ensures var d := Recorded(c, b, s, write);
            d.file - d.bytes == c.file - c.bytes + Left(c, b, Record(s, write))
  {
    hide Noted, RecordSize, Checked, Appended, LeftOf, Find;
    if s.Passed? {
      AppendedLeaves(c, RecordSize(b, c.sequence, s.receipt), MAX_JOURNAL - MAX_RECEIPT, write);
    }
  }

  lemma FinishedLeaves(c: Capture, b: Binding, terminal: Option<string>, t: Stamp, write: Write, verified: bool, closed: bool)
    ensures var d := Finished(c, b, terminal, t, write, verified, closed);
            d.file - d.bytes == c.file - c.bytes + Left(c, b, Event.Finish(terminal, t, write, verified, closed))
  {
    hide FooterSize, Appended, LeftOf, Marked, Timed, Verified;
    var timed := Timed(c, b, terminal).0;
    TimedLeaves(c, b, terminal);
    var size := FooterSize(b, timed, terminal, t);
    AppendedLeaves(timed, size, MAX_JOURNAL, write);
    var footer := Appended(timed, size, MAX_JOURNAL, write);
    if footer.Err? { MarkedReceipts(footer.error.0, "capture footer unavailable: " + footer.error.1); }
    var d := FooterOrMark(footer);
    var e := if Verified(d, verified) then d else Marked(d, "capture hash unavailable");
    MarkedReceipts(d, "capture hash unavailable");
    MarkedReceipts(e, "capture close failed");
  }

  lemma TimedLeaves(c: Capture, b: Binding, terminal: Option<string>)
    ensures var timed := Timed(c, b, terminal).0; timed == c.(reasons := timed.reasons)
  {
    hide Noted, Timing;
  }

  lemma InvalidateLeaves(c: Capture, b: Binding, reason: string)
    ensures var d := Marked(c, reason);
            d.file - d.bytes == c.file - c.bytes + Left(c, b, InvalidateEvent(reason))
  {
    hide Noted;
  }

  lemma StepLeaves(c: Capture, b: Binding, e: Event)
    ensures Step(c, b, e).file - Step(c, b, e).bytes == c.file - c.bytes + Left(c, b, e)
  {
    hide Noted, Recorded, Finished, Left;
    match e {
      case Record(s, write) => RecordedLeaves(c, b, s, write);
      case InvalidateEvent(reason) => InvalidateLeaves(c, b, reason);
      case Finish(terminal, t, write, verified, closed) => FinishedLeaves(c, b, terminal, t, write, verified, closed);
    }
  }

  lemma {:induction false} RunLeaves(c: Capture, b: Binding, events: seq<Event>)
    ensures RunFrom(c, b, events).file - RunFrom(c, b, events).bytes == c.file - c.bytes + LeftBy(c, b, events)
  {
    if events != [] {
      hide Step, Left;
      RunLeaves(c, b, events[..|events| - 1]);
      StepLeaves(RunFrom(c, b, events[..|events| - 1]), b, events[|events| - 1]);
    }
  }

  lemma {:induction false} NothingLeftIff(c: Capture, b: Binding, events: seq<Event>)
    ensures LeftBy(c, b, events) == 0 <==> forall i | 0 <= i < |events| :: Left(RunFrom(c, b, events[..i]), b, events[i]) == 0
  {
    hide Left, RunFrom;
    if events != [] {
      var n := |events| - 1;
      NothingLeftIff(c, b, events[..n]);
      assert forall i | 0 <= i < n :: events[..n][..i] == events[..i];
    }
  }

  /**
   * The file is the counted bytes and what failing writes left, and so exactly the counted bytes when none of the
   * writes that were reached left anything.
   */
  lemma FileIsCountedIff(b: Binding, t: Stamp, events: seq<Event>)
    ensures var c := RunFrom(Opened(b, t), b, events);
            && c.file == c.bytes + LeftBy(Opened(b, t), b, events)
            && (c.file == c.bytes <==>
                  forall i | 0 <= i < |events| :: Left(RunFrom(Opened(b, t), b, events[..i]), b, events[i]) == 0)
  {
    hide RunFrom, Left, LeftBy;
    RunLeaves(Opened(b, t), b, events);
    NothingLeftIff(Opened(b, t), b, events);
  }

  /**
   * The counted journal never exceeds 64 MiB, and the file does so exactly when failing writes left more than the rest
   * of it. Any such leftover invalidates the capture, and a hash is reported only without one.
   */
  lemma JournalBoundedIff(b: Binding, begun: Stamp, events: seq<Event>)
    requires HeaderSize(b, begun) <= MAX_JOURNAL
    ensures var c := RunFrom(Opened(b, begun), b, events);
            var left := LeftBy(Opened(b, begun), b, events);
            && c.bytes <= MAX_JOURNAL && |c.receipts| <= MAX_RECEIPTS && |c.reasons| <= MAX_REASONS
            && (c.file <= MAX_JOURNAL <==> left <= MAX_JOURNAL - c.bytes)
            && (left > 0 ==> c.invalidated)
            && (c.finished.Some? && (c.finished.value.hashed || c.finished.value.span.Some?) ==> left == 0)
  {
    hide RunFrom, Honest, LeftBy;
    OpenedKeeps(b, begun);
    RunKeeps(Opened(b, begun), b, events);
    RunLeaves(Opened(b, begun), b, events);
  }

  lemma TornStep(c: Capture, b: Binding, r: Receipt, message: string)
    requires Checked(r) && c.finished.None? && c.receipts == [] && c.bytes + RecordSize(b, c.sequence, r) <= MAX_JOURNAL - MAX_RECEIPT
    ensures var size := RecordSize(b, c.sequence, r);
            var d := Recorded(c, b, Passed(r), WriteFailed(size, message));
            d == c.(file := c.file + size, invalidated := true, reasons := d.reasons)
  {
    hide Noted, RecordSize, Checked;
  }

  /** Failing writes are not counted, so a capture whose writes fail can leave any number of bytes on disk. */
  lemma {:induction false} TornWritesEscape(b: Binding, t: Stamp, r: Receipt, n: nat)
    requires Checked(r) && HeaderSize(b, t) + RecordSize(b, 1, r) <= MAX_JOURNAL - MAX_RECEIPT
    ensures var c := RunFrom(Opened(b, t), b, Torn(b, r, n));
            && c.finished.None? && c.receipts == [] && c.sequence == 1 && c.bytes == HeaderSize(b, t)
            && c.file == HeaderSize(b, t) + n * RecordSize(b, 1, r)
  {
    hide Recorded, RecordSize, HeaderSize, Checked;
    if n > 0 {
      TornWritesEscape(b, t, r, n - 1);
      assert Torn(b, r, n)[..n - 1] == Torn(b, r, n - 1);
      TornStep(RunFrom(Opened(b, t), b, Torn(b, r, n - 1)), b, r, "no space left");
    }
  }

  function Torn(b: Binding, r: Receipt, n: nat): seq<Event> {
    seq(n, _ => Record(Passed(r), WriteFailed(RecordSize(b, 1, r), "no space left")))
  }

  /** Once invalidated, never timed: whatever follows, the evidence has no span. */
  lemma {:induction false} InvalidatedForever(c: Capture, b: Binding, events: seq<Event>)
    requires Inv(c) && Honest(c, b) && c.invalidated && c.finished.None?
    ensures var d := RunFrom(c, b, events);
            d.finished.Some? ==> d.finished.value.span.None?
  {
    if events != [] {
      hide Inv, Honest, Recorded, Marked, Finished;
      var front, e := events[..|events| - 1], events[|events| - 1];
      StaysInvalidated(c, b, front);
      InvalidatedForever(c, b, front);
      RunKeeps(c, b, front);
      var d := RunFrom(c, b, front);
      match e {
        case Record(s, write) => RecordedFinished(d, b, s, write);
        case InvalidateEvent(reason) => InvalidatedFinished(d, reason);
        case Finish(terminal, t, write, verified, closed) =>
          FinishedKeeps(d, b, terminal, t, write, verified, closed);
          FinishedOnce(d, b, terminal, t, write, verified, closed);
      }
    }
  }

  lemma FinishedOnce(c: Capture, b: Binding, terminal: Option<string>, t: Stamp, write: Write, verified: bool, closed: bool)
    ensures c.finished.Some? ==> Finished(c, b, terminal, t, write, verified, closed) == c
    ensures c.invalidated ==> Finished(c, b, terminal, t, write, verified, closed).invalidated
  {
    hide Noted, FooterSize, Timing;
  }

  lemma {:induction false} StaysInvalidated(c: Capture, b: Binding, events: seq<Event>)
    requires c.invalidated
    ensures RunFrom(c, b, events).invalidated
  {
    if events != [] {
      hide Recorded, Marked, Finished;
      var front, e := events[..|events| - 1], events[|events| - 1];
      StaysInvalidated(c, b, front);
      var d := RunFrom(c, b, front);
      match e {
        case Record(s, write) => RecordedFinished(d, b, s, write);
        case InvalidateEvent(reason) => InvalidatedFinished(d, reason);
        case Finish(terminal, t, write, verified, closed) => FinishedOnce(d, b, terminal, t, write, verified, closed);
      }
    }
  }

  /** A reported span was derived from the receipts the journal holds, by a capture that was never invalidated. */
  lemma SpanMeans(b: Binding, begun: Stamp, events: seq<Event>)
    requires HeaderSize(b, begun) <= MAX_JOURNAL
    ensures var c := RunFrom(Opened(b, begun), b, events);
            c.finished.Some? && c.finished.value.span.Some? ==>
              var span := c.finished.value.span.value;
              && !c.invalidated && Coherent(c.receipts) && Begins(span.start, c.receipts, b.promptSha)
              && (exists terminal :: Closes(span.stop, c.receipts, terminal))
              && span.start.clock < span.stop.clock <= span.start.clock + DAY_NS
  {
    hide RunFrom, Coherent, Begins, Closes, Timing;
    OpenedKeeps(b, begun);
    RunKeeps(Opened(b, begun), b, events);
    var c := RunFrom(Opened(b, begun), b, events);
    if c.finished.Some? && c.finished.value.span.Some? {
      var span := c.finished.value.span.value;
      var terminal :| Timing(c.receipts, false, terminal, b.promptSha) == Ok(span);
      TimingIff(c.receipts, false, terminal, b.promptSha, span);
    }
  }
}
