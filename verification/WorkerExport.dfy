/**
 * What a finished worker prints, and how the controller reads it (benchmarks/opencode_worker.py, main;
 * benchmarks/opencode_executor.py, worker_observation).
 */
module WorkerExport {
  import opened Common
  import opened Base64
  import opened CliTurn
  import opened ControlRelay
  import opened WorkerSession
  import Text

  const MAX_RAW: nat := 64 * 1024 * 1024
  const MAX_ENVELOPE: nat := 96 * 1024 * 1024

  datatype Row = Row(session: string, digest: Digest, size: int, base64: string)
  datatype Packet = Packet(turns: seq<Row>, actions: seq<Action>, followups: seq<string>, limitReached: bool)

  function Total(files: seq<seq<Byte>>): nat {
    if files == [] then 0 else Total(files[..|files| - 1]) + |files[|files| - 1]|
  }

  function RowOf(turn: Turn, raw: seq<Byte>): Row {
    Row(turn.session, turn.digest, turn.size, Encode(raw))
  }

  function RowsOf(turns: seq<Turn>, files: seq<seq<Byte>>): (rows: seq<Row>)
    requires |files| == |turns|
  {
    seq(|turns|, i requires 0 <= i < |turns| => RowOf(turns[i], files[i]))
  }

  /** The export succeeds exactly when the logs fit together, whatever order of reads finds that out. */
  function Exported(run: SessionRun, files: seq<seq<Byte>>): Option<Packet>
    requires |files| == |run.turns|
  {
    if Total(files) > MAX_RAW then None
    else Some(Packet(RowsOf(run.turns, files), run.actions, run.outgoing, run.limitReached))
  }

  lemma {:induction false} TotalPrefix(files: seq<seq<Byte>>, i: nat)
    requires i <= |files|
    ensures Total(files[..i]) <= Total(files)
    ensures i < |files| ==> Total(files[..i + 1]) == Total(files[..i]) + |files[i]|
  {
    if i < |files| {
      assert files[..i + 1][..i] == files[..i];
      TotalPrefix(files[..|files| - 1], if i < |files| - 1 then i + 1 else i);
      assert forall j | 0 <= j < |files| :: files[..|files| - 1][..j] == files[..j];
      assert files[..|files|] == files;
    } else {
      assert files[..i] == files;
    }
  }

  /** The loop in main: each log is read one byte past the bound at most. */
  method Export(run: SessionRun, files: seq<seq<Byte>>) returns (packet: Option<Packet>)
    requires |files| == |run.turns|
    ensures packet == Exported(run, files)
  {
    hide Encode;
    var total, turns := 0, [];
    for i := 0 to |run.turns|
      invariant |turns| == i && total == Total(files[..i]) <= MAX_RAW
      invariant forall j | 0 <= j < i :: turns[j] == RowOf(run.turns[j], files[j])
    {
      TotalPrefix(files, i);
      TotalPrefix(files, i + 1);
      hide Total;
      var raw := if |files[i]| > MAX_RAW + 1 then files[i][..MAX_RAW + 1] else files[i];
      total := total + |raw|;
      if total > MAX_RAW { return None; }
      turns := turns + [RowOf(run.turns[i], raw)];
    }
    assert files[..|files|] == files && turns == RowsOf(run.turns, files);
    return Some(Packet(turns, run.actions, run.outgoing, run.limitReached));
  }

  // ----- the size of the printed envelope -----

  const ENVELOPE_FRAME: nat := 101
  const ROW_FRAME: nat := 132

  function ActionSize(action: Action): nat {
    2 + match action {
      case SendNudge => 10
      case ContinueSession => 16
      case RequestVerification => 20
      case Noop => 4
      case Unsupported => 0
    }
  }

  function RowSize(row: Row): nat {
    ROW_FRAME + Text.StringSize(row.session) + Text.DecimalSize(if row.size < 0 then 0 else row.size) + |row.base64|
  }

  function RowsSize(rows: seq<Row>): nat {
    if rows == [] then 0 else RowsSize(rows[..|rows| - 1]) + RowSize(rows[|rows| - 1])
  }

  function ActionsSize(actions: seq<Action>): nat {
    if actions == [] then 0 else ActionsSize(actions[..|actions| - 1]) + ActionSize(actions[|actions| - 1])
  }

  function TextsSize(texts: seq<string>): nat {
    if texts == [] then 0 else TextsSize(texts[..|texts| - 1]) + Text.StringSize(texts[|texts| - 1])
  }

  /** Brackets and commas of a list. */
  function ListFrame(n: nat): nat {
    if n == 0 then 2 else n + 1
  }

  /** What main prints, in bytes, with the newline. */
  function WireSize(p: Packet): nat {
    ENVELOPE_FRAME + ListFrame(|p.turns|) + RowsSize(p.turns) + ListFrame(|p.actions|) + ActionsSize(p.actions)
    + ListFrame(|p.followups|) + TextsSize(p.followups) + (if p.limitReached then 4 else 5) + 1
  }

  // ----- what the size is of -----

  function NameOf(action: Action): string {
    match action {
      case SendNudge => "SEND_NUDGE"
      case ContinueSession => "CONTINUE_SESSION"
      case RequestVerification => "REQUEST_VERIFICATION"
      case Noop => "NOOP"
      case Unsupported => ""
    }
  }

  /** Items between brackets, with commas. */
  function Items(items: seq<string>): string {
    if items == [] then ""
    else Items(items[..|items| - 1]) + (if |items| > 1 then "," else "") + items[|items| - 1]
  }

  function Listed(items: seq<string>): string {
    "[" + Items(items) + "]"
  }

  /** A row's JSON object, under any printing of digests; base64 text needs no escapes. */
  function PrintedRow(row: Row, hex: Digest -> string): string {
    "{\"session_id\":" + Text.Quoted(row.session) + ",\"stdout_sha256\":\"" + hex(row.digest) + "\",\"stdout_bytes\":"
    + Text.Decimal(if row.size < 0 then 0 else row.size) + ",\"jsonl_base64\":\"" + row.base64 + "\"}"
  }

  function PrintedRows(rows: seq<Row>, hex: Digest -> string): (items: seq<string>)
    ensures |items| == |rows|
  {
    if rows == [] then [] else PrintedRows(rows[..|rows| - 1], hex) + [PrintedRow(rows[|rows| - 1], hex)]
  }

  function PrintedActions(actions: seq<Action>): (items: seq<string>)
    ensures |items| == |actions|
  {
    if actions == [] then [] else PrintedActions(actions[..|actions| - 1]) + ["\"" + NameOf(actions[|actions| - 1]) + "\""]
  }

  function PrintedTexts(texts: seq<string>): (items: seq<string>)
    ensures |items| == |texts|
  {
    if texts == [] then [] else PrintedTexts(texts[..|texts| - 1]) + [Text.Quoted(texts[|texts| - 1])]
  }

  /** The line the worker prints. */
  function Printed(p: Packet, hex: Digest -> string): string {
    "{\"schema\":\"pex.opencode-worker-output.v1\"" + ",\"turns\":" + Listed(PrintedRows(p.turns, hex))
    + ",\"actions\":" + Listed(PrintedActions(p.actions)) + ",\"followups\":" + Listed(PrintedTexts(p.followups))
    + ",\"followup_limit_reached\":" + (if p.limitReached then "true" else "false") + "}\n"
  }

  function Sizes(items: seq<string>): nat {
    if items == [] then 0 else Sizes(items[..|items| - 1]) + |items[|items| - 1]|
  }

  lemma {:induction false} ListedSize(items: seq<string>)
    ensures |Items(items)| == Sizes(items) + if items == [] then 0 else |items| - 1
    ensures |Listed(items)| == ListFrame(|items|) + Sizes(items)
  {
    if items != [] { ListedSize(items[..|items| - 1]); }
  }

  lemma PrintedRowSize(row: Row, hex: Digest -> string)
    requires |hex(row.digest)| == 64
    ensures |PrintedRow(row, hex)| == RowSize(row)
  {
    hide Text.Quoted, Text.Decimal, Text.StringSize, Text.DecimalSize;
    Text.CharactersHaveSize(row.session);
    Text.DecimalHasSize(if row.size < 0 then 0 else row.size);
    assert |"{\"session_id\":"| == 14 && |",\"stdout_sha256\":\""| == 18 && |"\",\"stdout_bytes\":"| == 17;
    assert |",\"jsonl_base64\":\""| == 17 && |"\"}"| == 2;
  }

  lemma {:induction false} PrintedRowsSize(rows: seq<Row>, hex: Digest -> string)
    requires forall d :: |hex(d)| == 64
    ensures Sizes(PrintedRows(rows, hex)) == RowsSize(rows)
  {
    hide PrintedRow, RowSize;
    if rows != [] {
      PrintedRowsSize(rows[..|rows| - 1], hex);
      PrintedRowSize(rows[|rows| - 1], hex);
      SizesGrow(PrintedRows(rows[..|rows| - 1], hex), PrintedRow(rows[|rows| - 1], hex));
    }
  }

  lemma SizesGrow(items: seq<string>, item: string)
    ensures Sizes(items + [item]) == Sizes(items) + |item|
  {
    assert (items + [item])[..|items|] == items;
  }

  lemma NameHasSize(action: Action)
    ensures |"\"" + NameOf(action) + "\""| == ActionSize(action)
  {
  }

  lemma {:induction false} PrintedActionsSize(actions: seq<Action>)
    ensures Sizes(PrintedActions(actions)) == ActionsSize(actions)
  {
    hide NameOf, ActionSize;
    if actions != [] {
      var n := |actions| - 1;
      PrintedActionsSize(actions[..n]);
      NameHasSize(actions[n]);
      SizesGrow(PrintedActions(actions[..n]), "\"" + NameOf(actions[n]) + "\"");
    }
  }

  lemma {:induction false} PrintedTextsSize(texts: seq<string>)
    ensures Sizes(PrintedTexts(texts)) == TextsSize(texts)
  {
    hide Text.Quoted, Text.StringSize;
    if texts != [] {
      var n := |texts| - 1;
      PrintedTextsSize(texts[..n]);
      Text.CharactersHaveSize(texts[n]);
      SizesGrow(PrintedTexts(texts[..n]), Text.Quoted(texts[n]));
    }
  }

  /** The size the bounds speak of is that of the printed line, whatever its digests print as. */
  lemma PrintedSize(p: Packet, hex: Digest -> string)
    requires forall d :: |hex(d)| == 64
    ensures |Printed(p, hex)| == WireSize(p)
  {
    hide Listed, ListFrame, RowsSize, ActionsSize, TextsSize, PrintedRows, PrintedActions, PrintedTexts;
    ListedSize(PrintedRows(p.turns, hex));
    ListedSize(PrintedActions(p.actions));
    ListedSize(PrintedTexts(p.followups));
    PrintedRowsSize(p.turns, hex);
    PrintedActionsSize(p.actions);
    PrintedTextsSize(p.followups);
    assert |"{\"schema\":\"pex.opencode-worker-output.v1\""| == 41 && |",\"turns\":"| == 9 && |",\"actions\":"| == 11;
    assert |",\"followups\":"| == 13 && |",\"followup_limit_reached\":"| == 26 && |"}\n"| == 2;
  }

  // ----- the controller's reading -----

  /** A parsed envelope; None stands for a row, or a text, of the wrong shape. */
  datatype Report = Report(turns: seq<Option<Row>>, actions: seq<Action>, followups: seq<Option<string>>, limitReached: bool)

  datatype Checked = Checked(session: string, digest: Digest, size: nat, events: nat)
  datatype Observation = Observation(turns: seq<Checked>, actions: seq<Action>, followups: seq<string>, limitReached: bool)

  predicate GoodText(text: Option<string>) {
    text.Some? && Instructive(text.value)
  }

  /** Everything worker_observation checks before it reads the turns. */
  predicate Admissible(r: Report, supervised: bool, maxFollowups: int) {
    && 1 <= |r.turns| <= maxFollowups + 1 && |r.followups| <= maxFollowups
    && (!supervised ==> |r.turns| == 1 && r.actions == [] && r.followups == [] && !r.limitReached)
    && (supervised ==> |r.actions| == |r.turns| && |r.followups| == |r.turns| - 1)
    && (forall i | 0 <= i < |r.actions| :: r.actions[i] != Unsupported && (i < |r.actions| - 1 ==> r.actions[i] != Noop))
    && (forall i | 0 <= i < |r.followups| :: GoodText(r.followups[i]))
    && (supervised ==>
          && r.limitReached == Repairs(r.actions[|r.actions| - 1])
          && (r.limitReached ==> |r.followups| == maxFollowups))
  }

  /** The loop's variables. */
  datatype Audit = Audit(vendor: Option<string>, total: nat, verified: seq<Checked>)

  function CheckRow(a: Audit, row: Option<Row>, read: Reader): Option<Audit> {
    if row.None? then None
    else
      var data := Decode(row.value.base64);
      if data.None? || a.total + |data.value| > MAX_RAW then None
      else
        var turn := CompletedTurn(data.value, 0, a.vendor, read);
        if turn.None? || turn.value.session != row.value.session || turn.value.digest != row.value.digest
           || turn.value.size != row.value.size then None
        else Some(Audit(Some(turn.value.session), a.total + |data.value|,
                        a.verified + [Checked(turn.value.session, turn.value.digest, turn.value.size, turn.value.events)]))
  }

  function CheckRows(rows: seq<Option<Row>>, read: Reader): Option<Audit> {
    if rows == [] then Some(Audit(None, 0, []))
    else
      var a := CheckRows(rows[..|rows| - 1], read);
      if a.None? then None else CheckRow(a.value, rows[|rows| - 1], read)
  }

  function Texts(texts: seq<Option<string>>): seq<string>
    requires forall i | 0 <= i < |texts| :: GoodText(texts[i])
  {
    seq(|texts|, i requires 0 <= i < |texts| && GoodText(texts[i]) => texts[i].value)
  }

  /** worker_observation; report is None when the bytes are not the exact envelope. */
  function Observed(size: nat, report: Option<Report>, supervised: bool, maxFollowups: int, read: Reader): Option<Observation> {
    if !(0 < size <= MAX_ENVELOPE) || report.None? || !Admissible(report.value, supervised, maxFollowups) then None
    else
      var a := CheckRows(report.value.turns, read);
      if a.None? then None
      else Some(Observation(a.value.verified, report.value.actions, Texts(report.value.followups), report.value.limitReached))
  }

  method WorkerObservation(size: nat, report: Option<Report>, supervised: bool, maxFollowups: int, read: Reader)
      returns (o: Option<Observation>)
    ensures o == Observed(size, report, supervised, maxFollowups, read)
  {
    hide CheckRow, GoodText;
    if !(0 < size <= MAX_ENVELOPE) || report.None? || !Admissible(report.value, supervised, maxFollowups) { return None; }
    var rows := report.value.turns;
    var a := Audit(None, 0, []);
    assert rows[..0] == [];
    for i := 0 to |rows|
      invariant CheckRows(rows[..i], read) == Some(a)
    {
      assert rows[..i + 1][..i] == rows[..i];
      var next := CheckRow(a, rows[i], read);
      if next.None? {
        NoneStays(rows, i + 1, read);
        return None;
      }
      a := next.value;
    }
    assert rows[..|rows|] == rows;
    return Some(Observation(a.verified, report.value.actions, Texts(report.value.followups), report.value.limitReached));
  }

  lemma {:induction false} NoneStays(rows: seq<Option<Row>>, i: nat, read: Reader)
    requires i <= |rows| && CheckRows(rows[..i], read).None?
    ensures CheckRows(rows, read).None?
    decreases |rows|
  {
    if i < |rows| {
      assert rows[..|rows| - 1][..i] == rows[..i];
      NoneStays(rows[..|rows| - 1], i, read);
    } else {
      assert rows[..i] == rows;
    }
  }

  // ----- which reports are admitted -----

  /** Exactly the reports that have the shape of a finished run under the same limits. */
  lemma AdmissibleIff(r: Report, supervised: bool, maxFollowups: nat)
    ensures Admissible(r, supervised, maxFollowups) <==>
              && 1 <= |r.turns| <= maxFollowups + 1 && |r.turns| == |r.followups| + 1
              && (forall i | 0 <= i < |r.followups| :: r.followups[i].Some? && Instructive(r.followups[i].value))
              && if supervised
                 then |r.actions| == |r.turns| && Terminal(r.actions, r.limitReached)
                      && (r.limitReached ==> |r.turns| == maxFollowups + 1)
                 else |r.turns| == 1 && r.actions == [] && !r.limitReached
  {
    hide Instructive;
    if |r.actions| > 0 {
      assert forall i | 0 <= i < |r.actions| - 1 :: r.actions[..|r.actions| - 1][i] == r.actions[i];
    }
  }

  // ----- what an accepted report says -----

  function SessionSo(rows: seq<Option<Row>>, i: nat): Option<string>
    requires i <= |rows|
  {
    if i == 0 || rows[i - 1].None? then None else Some(rows[i - 1].value.session)
  }

  /** Row i names the turn its own bytes complete to, in the session of the row before. */
  ghost predicate Genuine(rows: seq<Option<Row>>, i: nat, read: Reader)
    requires i < |rows|
  {
    && rows[i].Some? && Decode(rows[i].value.base64).Some?
    && var data := Decode(rows[i].value.base64).value;
       var turn := CompletedTurn(data, 0, SessionSo(rows, i), read);
       && turn.Some? && turn.value.session == rows[i].value.session && turn.value.digest == rows[i].value.digest
       && turn.value.size == rows[i].value.size
  }

  /** Decoded bytes of the leading decodable rows. */
  function Decoded(rows: seq<Option<Row>>): nat {
    if rows == [] then 0
    else
      var row := rows[|rows| - 1];
      Decoded(rows[..|rows| - 1])
      + if row.None? || Decode(row.value.base64).None? then 0 else |Decode(row.value.base64).value|
  }

  /** Rows before i are judged the same whatever follows them. */
  lemma GenuinePrefix(rows: seq<Option<Row>>, read: Reader)
    requires rows != []
    ensures var n := |rows| - 1;
            && SessionSo(rows, n) == SessionSo(rows[..n], n)
            && forall i | 0 <= i < n :: Genuine(rows, i, read) <==> Genuine(rows[..n], i, read)
  {
    hide CompletedTurn, Decode;
    forall i | 0 <= i < |rows| - 1 ensures Genuine(rows, i, read) <==> Genuine(rows[..|rows| - 1], i, read) {
      assert SessionSo(rows, i) == SessionSo(rows[..|rows| - 1], i);
    }
  }

  lemma CheckRowGenuine(a: Audit, rows: seq<Option<Row>>, read: Reader)
    requires rows != [] && a.vendor == SessionSo(rows, |rows| - 1) && a.total == Decoded(rows[..|rows| - 1])
    ensures var n := |rows| - 1;
            var b := CheckRow(a, rows[n], read);
            && (b.Some? <==> Genuine(rows, n, read) && Decoded(rows) <= MAX_RAW)
            && (b.Some? ==> b.value.total == Decoded(rows) && b.value.vendor == SessionSo(rows, |rows|)
                            && b.value.verified == a.verified + [CheckedOf(rows, n, read)])
  {
    hide CompletedTurn, Decode;
  }

  ghost function CheckedOf(rows: seq<Option<Row>>, i: nat, read: Reader): Checked
    requires i < |rows| && Genuine(rows, i, read)
  {
    var turn := CompletedTurn(Decode(rows[i].value.base64).value, 0, SessionSo(rows, i), read).value;
    Checked(turn.session, turn.digest, turn.size, turn.events)
  }

  /** The rows are accepted exactly when each is genuine and together they keep the bound. */
  ghost predicate Audits(a: Option<Audit>, rows: seq<Option<Row>>, read: Reader) {
    && (a.Some? <==> Decoded(rows) <= MAX_RAW && forall i | 0 <= i < |rows| :: Genuine(rows, i, read))
    && (a.Some? ==>
          && a.value.total == Decoded(rows) && a.value.vendor == SessionSo(rows, |rows|) && |a.value.verified| == |rows|
          && forall i | 0 <= i < |rows| :: a.value.verified[i] == CheckedOf(rows, i, read))
  }

  lemma CheckRowsStep(a: Option<Audit>, rows: seq<Option<Row>>, read: Reader)
    requires rows != [] && Audits(a, rows[..|rows| - 1], read)
    ensures Audits(if a.None? then None else CheckRow(a.value, rows[|rows| - 1], read), rows, read)
  {
    hide Genuine, CheckRow;
    var n := |rows| - 1;
    GenuinePrefix(rows, read);
    CheckedPrefix(rows, read);
    if a.Some? {
      CheckRowGenuine(a.value, rows, read);
    }
  }

  lemma CheckedPrefix(rows: seq<Option<Row>>, read: Reader)
    requires rows != []
    ensures forall i | 0 <= i < |rows| - 1 && Genuine(rows, i, read) && Genuine(rows[..|rows| - 1], i, read) ::
              CheckedOf(rows, i, read) == CheckedOf(rows[..|rows| - 1], i, read)
  {
    hide CompletedTurn, Decode;
    forall i | 0 <= i < |rows| - 1 && Genuine(rows, i, read) && Genuine(rows[..|rows| - 1], i, read)
      ensures CheckedOf(rows, i, read) == CheckedOf(rows[..|rows| - 1], i, read)
    {
      assert SessionSo(rows, i) == SessionSo(rows[..|rows| - 1], i);
    }
  }

  lemma {:induction false} CheckRowsIff(rows: seq<Option<Row>>, read: Reader)
    ensures Audits(CheckRows(rows, read), rows, read)
  {
    if rows != [] {
      hide Audits, CheckRow;
      CheckRowsIff(rows[..|rows| - 1], read);
      CheckRowsStep(CheckRows(rows[..|rows| - 1], read), rows, read);
    }
  }

  // ----- a finished session is observed -----

  /** What the controller's parser makes of a printed packet. */
  function Reported(p: Packet): Report {
    Report(seq(|p.turns|, i requires 0 <= i < |p.turns| => Some(p.turns[i])), p.actions,
           seq(|p.followups|, i requires 0 <= i < |p.followups| => Some(p.followups[i])), p.limitReached)
  }

  function CheckedTurn(turn: Turn): Checked {
    Checked(turn.session, turn.digest, turn.size, turn.events)
  }

  function CheckedTurns(turns: seq<Turn>): seq<Checked> {
    seq(|turns|, i requires 0 <= i < |turns| => CheckedTurn(turns[i]))
  }

  /** Each log is the one its turn was judged from. */
  ghost predicate LogsKept(w: World, files: seq<seq<Byte>>) {
    forall i | 0 <= i < |files| :: w.turn(i).Exited? && files[i] == w.turn(i).raw
  }

  function PacketOf(run: SessionRun, files: seq<seq<Byte>>): Packet
    requires |files| == |run.turns|
  {
    Packet(RowsOf(run.turns, files), run.actions, run.outgoing, run.limitReached)
  }

  lemma LineageAdmissible(w: World, supervised: bool, maxFollowups: nat, run: SessionRun, files: seq<seq<Byte>>)
    requires Lineage(w, supervised, maxFollowups, run) && |files| == |run.turns|
    ensures var r := Reported(PacketOf(run, files));
            Admissible(r, supervised, maxFollowups) && Texts(r.followups) == run.outgoing
  {
    hide Instructive, AllLogged, RowOf;
    var r := Reported(PacketOf(run, files));
    forall i | 0 <= i < |r.followups| ensures GoodText(r.followups[i]) {
      assert Instructive(run.outgoing[i]);
    }
    if supervised {
      var n := |run.actions| - 1;
      forall i | 0 <= i < |r.actions| ensures r.actions[i] != Unsupported && (i < n ==> r.actions[i] != Noop) {
        if i < n { assert Repairs(run.actions[..n][i]); }
      }
    }
  }

  lemma LoggedGenuine(w: World, run: SessionRun, files: seq<seq<Byte>>, i: nat)
    requires AllLogged(w, run.turns) && |files| == |run.turns| && LogsKept(w, files) && i < |files|
    ensures var rows := Reported(PacketOf(run, files)).turns;
            && Genuine(rows, i, w.read) && CheckedOf(rows, i, w.read) == CheckedTurn(run.turns[i])
            && Decode(rows[i].value.base64) == Some(files[i])
  {
    hide CompletedTurn, Encode, Decode;
    assert Logged(w, run.turns, i);
    var rows := Reported(PacketOf(run, files)).turns;
    assert SessionSo(rows, i) == SessionBefore(run.turns, i);
    Base64.RoundTrip(files[i]);
  }

  lemma {:induction false} DecodedTotal(rows: seq<Option<Row>>, files: seq<seq<Byte>>)
    requires |rows| == |files|
    requires forall i | 0 <= i < |rows| :: rows[i].Some? && Decode(rows[i].value.base64) == Some(files[i])
    ensures Decoded(rows) == Total(files)
  {
    if rows != [] {
      hide Decode;
      DecodedTotal(rows[..|rows| - 1], files[..|files| - 1]);
    }
  }

  // The size bound, term by term.

  lemma RowSizeBound(w: World, run: SessionRun, files: seq<seq<Byte>>, i: nat)
    requires AllLogged(w, run.turns) && |files| == |run.turns| && LogsKept(w, files) && i < |files|
    ensures 3 * RowSize(RowOf(run.turns[i], files[i])) <= 4 * |files[i]| + 9_650
  {
    hide Encode, Lines, Readable, Events, Coherent, NaturalStop;
    assert Logged(w, run.turns, i);
    CompletedIff(files[i], 0, SessionBefore(run.turns, i), w.read);
    TurnBounds(files[i], SessionBefore(run.turns, i), w.read);
    var turn := run.turns[i];
    Text.CharsSizeBound(turn.session);
    assert Text.Power10(8) == 100_000_000 by {
      assert Text.Power10(4) == 10_000;
    }
    Text.DecimalSizeBound(turn.size, 8);
  }

  lemma TurnBounds(raw: seq<Byte>, expected: Option<string>, read: Reader)
    requires CompletedTurn(raw, 0, expected, read).Some?
    ensures var turn := CompletedTurn(raw, 0, expected, read).value;
            1 <= |turn.session| <= 256 && turn.size == |raw| <= CliTurn.MAX_OUTPUT
  {
    hide Lines, Readable, Events, NaturalStop, HearLines;
    CompletedIff(raw, 0, expected, read);
  }

  lemma {:induction false} RowsSizeBound(rows: seq<Row>, files: seq<seq<Byte>>)
    requires |rows| == |files|
    requires forall i | 0 <= i < |rows| :: 3 * RowSize(rows[i]) <= 4 * |files[i]| + 9_650
    ensures 3 * RowsSize(rows) <= 4 * Total(files) + 9_650 * |files|
  {
    hide RowSize;
    if rows != [] {
      RowsSizeBound(rows[..|rows| - 1], files[..|files| - 1]);
    }
  }

  lemma {:induction false} TextsSizeBound(texts: seq<string>)
    requires AllInstructive(texts)
    ensures TextsSize(texts) <= 240_002 * |texts|
  {
    if texts != [] {
      TextsSizeBound(texts[..|texts| - 1]);
      assert Instructive(texts[|texts| - 1]);
      Text.CharsSizeBound(texts[|texts| - 1]);
    }
  }

  lemma {:induction false} ActionsSizeBound(actions: seq<Action>)
    ensures ActionsSize(actions) <= 22 * |actions|
  {
    if actions != [] {
      ActionsSizeBound(actions[..|actions| - 1]);
    }
  }

  /** Logs within the 64 MiB bound make an envelope within the 96 MiB bound, whatever characters it carries. */
  lemma EnvelopeFits(w: World, supervised: bool, maxFollowups: nat, run: SessionRun, files: seq<seq<Byte>>)
    requires maxFollowups <= 10 && Lineage(w, supervised, maxFollowups, run)
    requires |files| == |run.turns| && LogsKept(w, files) && Total(files) <= MAX_RAW
    ensures 0 < WireSize(PacketOf(run, files)) <= MAX_ENVELOPE
  {
    hide RowSize, RowsSize, TextsSize, ActionsSize, AllInstructive, AllLogged, AllRepair, LogsKept, RowOf;
    forall i | 0 <= i < |files| ensures 3 * RowSize(RowOf(run.turns[i], files[i])) <= 4 * |files[i]| + 9_650 {
      RowSizeBound(w, run, files, i);
    }
    RowsSizeBound(RowsOf(run.turns, files), files);
    TextsSizeBound(run.outgoing);
    ActionsSizeBound(run.actions);
  }

  /**
   * The round trip: the controller, under the same limits, observes exactly the turns, actions and follow-ups of a
   * finished session when its logs keep the bound, which is also exactly when the worker exports at all.
   */
  lemma FinishedObserved(w: World, supervised: bool, maxFollowups: int, files: seq<seq<Byte>>)
    requires WorkerRun(w, supervised, maxFollowups).Finished? && LogsKept(w, files)
    requires |files| == |WorkerRun(w, supervised, maxFollowups).run.turns|
    ensures var run := WorkerRun(w, supervised, maxFollowups).run;
            var seen := Observed(WireSize(PacketOf(run, files)), Some(Reported(PacketOf(run, files))), supervised, maxFollowups, w.read);
            && (seen.Some? <==> Exported(run, files) == Some(PacketOf(run, files)))
            && (seen.Some? <==> Total(files) <= MAX_RAW)
            && (seen.Some? ==> seen.value == Observation(CheckedTurns(run.turns), run.actions, run.outgoing, run.limitReached))
  {
    hide WorkerRun, Lineage, Admissible, Genuine, CheckRows, WireSize, RowOf, Total, Texts, LogsKept, AllLogged;
    WorkerRunKeeps(w, supervised, maxFollowups);
    var run := WorkerRun(w, supervised, maxFollowups).run;
    LineageLogged(w, supervised, maxFollowups, run);
    LineageAdmissible(w, supervised, maxFollowups, run, files);
    var rows := Reported(PacketOf(run, files)).turns;
    forall i | 0 <= i < |files|
      ensures Genuine(rows, i, w.read) && CheckedOf(rows, i, w.read) == CheckedTurn(run.turns[i])
      ensures Decode(rows[i].value.base64) == Some(files[i])
    {
      LoggedGenuine(w, run, files, i);
    }
    DecodedTotal(rows, files);
    CheckRowsIff(rows, w.read);
    if Total(files) <= MAX_RAW {
      EnvelopeFits(w, supervised, maxFollowups, run, files);
      assert CheckRows(rows, w.read).value.verified == CheckedTurns(run.turns);
    }
  }

  lemma LineageLogged(w: World, supervised: bool, maxFollowups: nat, run: SessionRun)
    requires Lineage(w, supervised, maxFollowups, run)
    ensures AllLogged(w, run.turns)
  {
  }
}
