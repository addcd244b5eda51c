/** A completed Responses result as a stream of lifecycle events (benchmarks/worker_model_proxy.py, responses_sse). */
module ResponsesStream {
  import opened Common
  import opened Json
  import EventStream

  type Fields = map<Key, Json>

  const COMPLETED: string := "completed"
  const IN_PROGRESS: string := "in_progress"
  const MESSAGE: string := "message"
  const OUTPUT_TEXT: string := "output_text"
  const REFUSAL: string := "refusal"

  /** The two kinds of message part that can be streamed. */
  datatype Kind = TextPart | RefusalPart

  datatype Location = Location(itemId: string, output: nat, content: nat)

  datatype ResponseEvent =
    | ResponseCreated(response: Fields)
    | ItemAdded(output: nat, item: Fields)
    | PartAdded(at: Location, part: Fields)
    | TextDelta(kind: Kind, at: Location, delta: string)
    | TextDone(kind: Kind, at: Location, text: string)
    | PartDone(at: Location, part: Fields)
    | ItemDone(output: nat, item: Fields)
    | ResponseCompleted(response: Fields)

  function NameOf(e: ResponseEvent): string {
    match e {
      case ResponseCreated(_) => "response.created"
      case ItemAdded(_, _) => "response.output_item.added"
      case PartAdded(_, _) => "response.content_part.added"
      case TextDelta(kind, _, _) => if kind.TextPart? then "response.output_text.delta" else "response.refusal.delta"
      case TextDone(kind, _, _) => if kind.TextPart? then "response.output_text.done" else "response.refusal.done"
      case PartDone(_, _) => "response.content_part.done"
      case ItemDone(_, _) => "response.output_item.done"
      case ResponseCompleted(_) => "response.completed"
    }
  }

  predicate IsMessage(item: Fields) {
    Get(item, Type) == Some(Str(MESSAGE))
  }

  function FieldOf(kind: Kind): Key {
    if kind.RefusalPart? then Refusal else Text
  }

  function KindOf(part: Fields): Option<Kind> {
    if Get(part, Type) == Some(Str(REFUSAL)) then Some(RefusalPart)
    else if Get(part, Type) == Some(Str(OUTPUT_TEXT)) then Some(TextPart)
    else None
  }

  /** The kind and text of a part that can be streamed. */
  function Spoken(part: Json): Option<(Kind, string)> {
    if !part.Obj? || KindOf(part.fields).None? then None
    else
      var kind := KindOf(part.fields).value;
      var text := Get(part.fields, FieldOf(kind));
      if text.Some? && text.value.Str? then Some((kind, text.value.s)) else None
  }

  function PartEvents(part: Json, at: Location): seq<ResponseEvent>
    requires Spoken(part).Some?
  {
    var (kind, text) := Spoken(part).value;
    [PartAdded(at, part.fields[FieldOf(kind) := Str("")]), TextDelta(kind, at, text), TextDone(kind, at, text),
     PartDone(at, part.fields)]
  }

  function AllPartEvents(parts: seq<Json>, id: string, output: nat): Option<seq<ResponseEvent>> {
    if parts == [] then Some([])
    else
      var n := |parts| - 1;
      var before := AllPartEvents(parts[..n], id, output);
      if before.None? || Spoken(parts[n]).None? then None
      else Some(before.value + PartEvents(parts[n], Location(id, output, n)))
  }

  /** The content of a message, as the loop over it sees it; None raises. */
  function PartsOf(item: Fields): Option<seq<Json>> {
    if Content in item then Elements(item[Content]) else Some([])
  }

  function Opening(item: Fields): Fields {
    if IsMessage(item) then item[Status := Str(IN_PROGRESS)][Content := Arr([])] else item[Status := Str(IN_PROGRESS)]
  }

  function ItemEvents(item: Json, output: nat): Option<seq<ResponseEvent>> {
    if !item.Obj? || Get(item.fields, Id).None? || !item.fields[Id].Str? then None
    else
      var inner := if !IsMessage(item.fields) then Some([])
                   else if PartsOf(item.fields).None? then None
                   else AllPartEvents(PartsOf(item.fields).value, item.fields[Id].s, output);
      if inner.None? then None
      else Some([ItemAdded(output, Opening(item.fields))] + inner.value + [ItemDone(output, item.fields)])
  }

  function AllItemEvents(items: seq<Json>): Option<seq<ResponseEvent>> {
    if items == [] then Some([])
    else
      var n := |items| - 1;
      var before := AllItemEvents(items[..n]);
      var last := ItemEvents(items[n], n);
      if before.None? || last.None? then None else Some(before.value + last.value)
  }

  predicate IsCompleted(result: Fields) {
    Get(result, Status) == Some(Str(COMPLETED)) && Get(result, Output).Some? && result[Output].Arr?
  }

  function Started(result: Fields): Fields {
    result[Status := Str(IN_PROGRESS)][Output := Arr([])]
  }

  function ResponseEvents(result: Fields): Option<seq<ResponseEvent>> {
    if !IsCompleted(result) then None
    else
      var inner := AllItemEvents(result[Output].items);
      if inner.None? then None
      else Some([ResponseCreated(Started(result))] + inner.value + [ResponseCompleted(result)])
  }

  /** The JSON text of an event with its sequence number, and back. */
  datatype Codec = Codec(encode: (nat, ResponseEvent) -> string, decode: string -> Option<(nat, ResponseEvent)>) {
    ghost predicate Lawful() {
      forall n: nat, e: ResponseEvent :: decode(encode(n, e)) == Some((n, e)) && EventStream.OneLine(encode(n, e))
    }
  }

  function FrameOf(codec: Codec, n: nat, e: ResponseEvent): EventStream.Frame {
    EventStream.Frame(Some(NameOf(e)), codec.encode(n, e))
  }

  function FramesOf(codec: Codec, events: seq<ResponseEvent>): seq<EventStream.Frame> {
    seq(|events|, i requires 0 <= i < |events| => FrameOf(codec, i, events[i]))
  }

  method ResponsesSse(codec: Codec, result: Fields) returns (raw: Option<string>)
    ensures raw == if ResponseEvents(result).None? then None
                   else Some(EventStream.Stream(FramesOf(codec, ResponseEvents(result).value)))
  {
    hide EventStream.Stream, ItemEvents, Started;
    if !IsCompleted(result) { return None; }
    var output := result[Output].items;
    var events: seq<ResponseEvent> := [ResponseCreated(Started(result))];
    assert output[..0] == [] && events + [] == events;
    for i := 0 to |output|
      invariant AllItemEvents(output[..i]).Some? && events == [ResponseCreated(Started(result))] + AllItemEvents(output[..i]).value
    {
      ItemPrefix(output, i);
      var emitted := EmitItem(output[i], i);
      if emitted.None? { return None; }
      events := events + emitted.value;
    }
    assert output[..|output|] == output;
    events := events + [ResponseCompleted(result)];
    return Some(EventStream.Stream(FramesOf(codec, events)));
  }

  method EmitItem(item: Json, output: nat) returns (events: Option<seq<ResponseEvent>>)
    ensures events == ItemEvents(item, output)
  {
    hide AllPartEvents, IsMessage, Opening;
    if !item.Obj? || Get(item.fields, Id).None? || !item.fields[Id].Str? { return None; }
    var emitted := [ItemAdded(output, Opening(item.fields))];
    if IsMessage(item.fields) {
      var inner := EmitParts(item.fields, output);
      if inner.None? { return None; }
      emitted := emitted + inner.value;
    } else {
      assert emitted + [] == emitted;
    }
    return Some(emitted + [ItemDone(output, item.fields)]);
  }

  method EmitParts(item: Fields, output: nat) returns (events: Option<seq<ResponseEvent>>)
    requires Get(item, Id).Some? && item[Id].Str?
    ensures events == if PartsOf(item).None? then None else AllPartEvents(PartsOf(item).value, item[Id].s, output)
  {
    hide Spoken;
    if PartsOf(item).None? { return None; }
    var parts := PartsOf(item).value;
    var emitted: seq<ResponseEvent> := [];
    assert parts[..0] == [];
    for i := 0 to |parts|
      invariant AllPartEvents(parts[..i], item[Id].s, output) == Some(emitted)
    {
      PartPrefix(parts, i, item[Id].s, output);
      if Spoken(parts[i]).None? { return None; }
      emitted := emitted + PartEvents(parts[i], Location(item[Id].s, output, i));
    }
    assert parts[..|parts|] == parts;
    return Some(emitted);
  }

  /** A list that fails in a prefix fails as a whole. */
  lemma {:induction false} ItemPrefix(items: seq<Json>, i: nat)
    requires i < |items|
    ensures items[..i + 1][..i] == items[..i] && items[..i + 1][i] == items[i]
    ensures AllItemEvents(items[..i]).None? || ItemEvents(items[i], i).None? ==> AllItemEvents(items).None?
    decreases |items|
  {
    hide ItemEvents;
    var n := |items| - 1;
    if i < n {
      ItemPrefix(items[..n], i);
      assert items[..n][..i] == items[..i];
    }
  }

  lemma {:induction false} PartPrefix(parts: seq<Json>, i: nat, id: string, output: nat)
    requires i < |parts|
    ensures parts[..i + 1][..i] == parts[..i] && parts[..i + 1][i] == parts[i]
    ensures AllPartEvents(parts[..i], id, output).None? || Spoken(parts[i]).None? ==> AllPartEvents(parts, id, output).None?
    decreases |parts|
  {
    hide Spoken, PartEvents;
    var n := |parts| - 1;
    if i < n {
      PartPrefix(parts[..n], i, id, output);
      assert parts[..n][..i] == parts[..i];
    }
  }

  // ----- a client that believes only the deltas -----

  /** A part under way: as it was opened, the text its deltas have brought, and whether that text was closed. */
  datatype OpenPart = OpenPart(at: Location, kind: Kind, part: Fields, text: string, closed: bool)
  datatype OpenItem = OpenItem(item: Fields, parts: seq<Json>, part: Option<OpenPart>)
  datatype Client = Client(response: Option<Fields>, items: seq<Json>, item: Option<OpenItem>, completed: bool)

  const WAITING := Client(None, [], None, false)

  function WithStatus(fields: Fields, from: Fields): Fields {
    if Status in from then fields[Status := from[Status]] else fields - {Status}
  }

  /** A finished item: a message takes its content from the parts heard, and every item its final status. */
  function Closed(open: OpenItem, done: Fields): Json {
    var fields := if IsMessage(open.item) then open.item[Content := Arr(open.parts)] else open.item;
    Obj(WithStatus(fields, done))
  }

  predicate ListensAt(c: Client, at: Location) {
    && c.item.Some? && at.output == |c.items| && at.content == |c.item.value.parts|
    && Get(c.item.value.item, Id) == Some(Str(at.itemId))
  }

  function ReceivePart(c: Client, open: OpenItem, e: ResponseEvent): Option<Client> {
    match e {
      case PartAdded(at, part) =>
        if !ListensAt(c, at) || open.part.Some? || KindOf(part).None? then None
        else Some(c.(item := Some(open.(part := Some(OpenPart(at, KindOf(part).value, part, "", false))))))
      case TextDelta(kind, at, delta) =>
        if open.part.None? || open.part.value.at != at || open.part.value.kind != kind || open.part.value.closed then None
        else Some(c.(item := Some(open.(part := Some(open.part.value.(text := open.part.value.text + delta))))))
      case TextDone(kind, at, text) =>
        if open.part.None? || open.part.value.at != at || open.part.value.kind != kind || open.part.value.closed
           || open.part.value.text != text then None
        else Some(c.(item := Some(open.(part := Some(open.part.value.(closed := true))))))
      case PartDone(at, part) =>
        if open.part.None? || open.part.value.at != at || !open.part.value.closed then None
        else
          var p := open.part.value;
          Some(c.(item := Some(open.(parts := open.parts + [Obj(p.part[FieldOf(p.kind) := Str(p.text)])], part := None))))
      case _ => None
    }
  }

  /** None is a protocol violation: an event out of order, out of its nesting, or contradicting what was heard. */
  function Receive(c: Client, e: ResponseEvent): Option<Client> {
    if c.completed then None
    else match e {
      case ResponseCreated(response) =>
        if c.response.Some? then None else Some(c.(response := Some(response)))
      case ItemAdded(output, item) =>
        if c.response.None? || c.item.Some? || output != |c.items| then None
        else Some(c.(item := Some(OpenItem(item, [], None))))
      case ItemDone(output, item) =>
        if c.item.None? || c.item.value.part.Some? || output != |c.items| then None
        else Some(c.(items := c.items + [Closed(c.item.value, item)], item := None))
      case ResponseCompleted(response) =>
        if c.response.None? || c.item.Some? then None
        else Some(c.(response := Some(WithStatus(c.response.value[Output := Arr(c.items)], response)), completed := true))
      case _ => if c.item.None? then None else ReceivePart(c, c.item.value, e)
    }
  }

  function ReceiveAll(c: Client, events: seq<ResponseEvent>): Option<Client> {
    if events == [] then Some(c)
    else
      var d := ReceiveAll(c, events[..|events| - 1]);
      if d.None? then None else Receive(d.value, events[|events| - 1])
  }

  lemma {:induction false} ReceiveConcat(c: Client, a: seq<ResponseEvent>, b: seq<ResponseEvent>)
    ensures ReceiveAll(c, a + b) ==
            if ReceiveAll(c, a).None? then None else ReceiveAll(ReceiveAll(c, a).value, b)
  {
    hide Receive;
    if b == [] {
      assert a + b == a;
    } else {
      var n := |b| - 1;
      ReceiveConcat(c, a, b[..n]);
      assert (a + b)[..|a + b| - 1] == a + b[..n];
    }
  }

  lemma ReceiveOne(c: Client, e: ResponseEvent)
    ensures ReceiveAll(c, [e]) == Receive(c, e)
  {
    assert [e][..0] == [] && ReceiveAll(c, []) == Some(c);
  }

  lemma ReceiveTwo(c: Client, e: ResponseEvent, f: ResponseEvent)
    requires Receive(c, e).Some?
    ensures ReceiveAll(c, [e, f]) == Receive(Receive(c, e).value, f)
  {
    hide Receive;
    ReceiveOne(c, e);
    assert [e, f][..1] == [e];
  }

  lemma PartReceived(c: Client, part: Json, at: Location)
    requires Spoken(part).Some? && !c.completed && c.item.Some? && c.item.value.part.None? && ListensAt(c, at)
    ensures ReceiveAll(c, PartEvents(part, at)) ==
            Some(c.(item := Some(c.item.value.(parts := c.item.value.parts + [part]))))
  {
    hide ReceiveAll, ListensAt;
    var (kind, text) := Spoken(part).value;
    var opening := part.fields[FieldOf(kind) := Str("")];
    assert KindOf(opening) == Some(kind);
    var open := c.item.value;
    var c1 := c.(item := Some(open.(part := Some(OpenPart(at, kind, opening, "", false)))));
    var c2 := c.(item := Some(open.(part := Some(OpenPart(at, kind, opening, text, false)))));
    var c3 := c.(item := Some(open.(part := Some(OpenPart(at, kind, opening, text, true)))));
    var es := PartEvents(part, at);
    assert Receive(c, es[0]) == Some(c1);
    assert "" + text == text;
    assert Receive(c1, es[1]) == Some(c2);
    assert Receive(c2, es[2]) == Some(c3);
    assert opening[FieldOf(kind) := Str(text)] == part.fields;
    assert Receive(c3, es[3]) == Some(c.(item := Some(open.(parts := open.parts + [part]))));
    ReceiveTwo(c, es[0], es[1]);
    ReceiveTwo(c2, es[2], es[3]);
    ReceiveConcat(c, es[..2], es[2..]);
    assert es == es[..2] + es[2..] && es[..2] == [es[0], es[1]] && es[2..] == [es[2], es[3]];
  }

  lemma {:induction false} PartsReceived(c: Client, parts: seq<Json>, id: string)
    requires !c.completed && c.item.Some? && c.item.value.part.None? && c.item.value.parts == []
    requires Get(c.item.value.item, Id) == Some(Str(id))
    requires AllPartEvents(parts, id, |c.items|).Some?
    ensures ReceiveAll(c, AllPartEvents(parts, id, |c.items|).value) == Some(c.(item := Some(c.item.value.(parts := parts))))
  {
    hide Spoken, PartEvents, Receive;
    if parts == [] {
      assert ReceiveAll(c, []) == Some(c);
    } else {
      var n := |parts| - 1;
      PartsReceived(c, parts[..n], id);
      var d := c.(item := Some(c.item.value.(parts := parts[..n])));
      PartReceived(d, parts[n], Location(id, |c.items|, n));
      ReceiveConcat(c, AllPartEvents(parts[..n], id, |c.items|).value, PartEvents(parts[n], Location(id, |c.items|, n)));
      assert parts[..n] + [parts[n]] == parts;
    }
  }

  /** The item a client ends with: a message's content is always the list of its parts. */
  function Heard(item: Json): Json
    requires item.Obj? && (IsMessage(item.fields) ==> PartsOf(item.fields).Some?)
  {
    if IsMessage(item.fields) then Obj(item.fields[Content := Arr(PartsOf(item.fields).value)]) else item
  }

  lemma ItemReceived(c: Client, item: Json)
    requires !c.completed && c.response.Some? && c.item.None? && ItemEvents(item, |c.items|).Some?
    ensures ReceiveAll(c, ItemEvents(item, |c.items|).value) == Some(c.(items := c.items + [Heard(item)]))
  {
    hide ReceiveAll, AllPartEvents, Spoken, ListensAt;
    var n, fields := |c.items|, item.fields;
    var opening := Opening(fields);
    var added, done := ItemAdded(n, opening), ItemDone(n, fields);
    var c1 := c.(item := Some(OpenItem(opening, [], None)));
    ReceiveOne(c, added);
    var parts := if IsMessage(fields) then PartsOf(fields).value else [];
    var inner := if IsMessage(fields) then AllPartEvents(parts, fields[Id].s, n).value else [];
    var c2 := c.(item := Some(OpenItem(opening, parts, None)));
    assert ReceiveAll(c1, inner) == Some(c2) by {
      if IsMessage(fields) { PartsReceived(c1, parts, fields[Id].s); } else { ReceiveNone(c1); }
    }
    ReceiveOne(c2, done);
    assert IsMessage(opening) == IsMessage(fields);
    assert Closed(c2.item.value, fields) == Heard(item) by { ClosedHeard(item, parts); }
    ReceiveConcat(c, [added], inner);
    ReceiveConcat(c, [added] + inner, [done]);
  }

  lemma ReceiveNone(c: Client)
    ensures ReceiveAll(c, []) == Some(c)
  {
  }

  lemma ClosedHeard(item: Json, parts: seq<Json>)
    requires item.Obj? && (IsMessage(item.fields) ==> PartsOf(item.fields) == Some(parts))
    ensures Closed(OpenItem(Opening(item.fields), parts, None), item.fields) == Heard(item)
  {
    hide Elements;
    var fields := item.fields;
    var closed := Closed(OpenItem(Opening(fields), parts, None), fields).fields;
    assert IsMessage(Opening(fields)) == IsMessage(fields);
    assert closed == Heard(item).fields;
  }

  predicate Hearable(item: Json) {
    item.Obj? && (IsMessage(item.fields) ==> PartsOf(item.fields).Some?)
  }

  function AllHeard(items: seq<Json>): seq<Json>
    requires forall i | 0 <= i < |items| :: Hearable(items[i])
  {
    seq(|items|, i requires 0 <= i < |items| && Hearable(items[i]) => Heard(items[i]))
  }

  lemma {:induction false} ItemsReceived(c: Client, items: seq<Json>)
    requires !c.completed && c.response.Some? && c.item.None? && c.items == [] && AllItemEvents(items).Some?
    ensures forall i | 0 <= i < |items| :: Hearable(items[i])
    ensures ReceiveAll(c, AllItemEvents(items).value) == Some(c.(items := AllHeard(items)))
  {
    hide Receive, Heard;
    if items == [] {
      ReceiveNone(c);
    } else {
      var n := |items| - 1;
      ItemsReceived(c, items[..n]);
      var d := c.(items := AllHeard(items[..n]));
      ItemHearable(items[n], n);
      ItemReceived(d, items[n]);
      ReceiveConcat(c, AllItemEvents(items[..n]).value, ItemEvents(items[n], n).value);
      assert forall i | 0 <= i < |items| :: Hearable(items[i]) by {
        assert forall i | 0 <= i < n :: items[i] == items[..n][i];
      }
      assert AllHeard(items) == AllHeard(items[..n]) + [Heard(items[n])];
    }
  }

  lemma ItemHearable(item: Json, n: nat)
    requires ItemEvents(item, n).Some?
    ensures Hearable(item)
  {
  }

  // ----- what is written for one part -----

  /** Exactly the parts that can be streamed: output text and refusals, with a string under their own field. */
  lemma SpokenIff(part: Json)
    ensures Spoken(part).Some? <==>
              && part.Obj? && Type in part.fields
              && ((part.fields[Type] == Str("refusal") && Refusal in part.fields && part.fields[Refusal].Str?)
                  || (part.fields[Type] == Str("output_text") && Text in part.fields && part.fields[Text].Str?))
  {
    assert "refusal"[0] != "output_text"[0];
  }

  /** An item that can be streamed: an object with an id, and, if it is a message with content, parts that all can. */
  ghost predicate Streamable(item: Json) {
    && item.Obj? && Id in item.fields && item.fields[Id].Str?
    && (Type in item.fields && item.fields[Type] == Str("message") && Content in item.fields ==>
          && Elements(item.fields[Content]).Some?
          && forall part | part in Elements(item.fields[Content]).value :: Spoken(part).Some?)
  }

  /** Exactly the results that are streamed: completed, with a list of items that can be. */
  lemma StreamedIff(result: Fields)
    ensures ResponseEvents(result).Some? <==>
              && Status in result && result[Status] == Str("completed") && Output in result && result[Output].Arr?
              && forall item | item in result[Output].items :: Streamable(item)
  {
    hide AllItemEvents;
    if Output in result && result[Output].Arr? { ItemsStreamable(result[Output].items); }
  }

  lemma {:induction false} ItemsStreamable(items: seq<Json>)
    ensures AllItemEvents(items).Some? <==> forall item | item in items :: Streamable(item)
  {
    hide ItemEvents, Streamable;
    if items != [] {
      var n := |items| - 1;
      ItemsStreamable(items[..n]);
      ItemStreamable(items[n], n);
      assert items == items[..n] + [items[n]];
    }
  }

  lemma ItemStreamable(item: Json, n: nat)
    ensures ItemEvents(item, n).Some? <==> Streamable(item)
  {
    hide Spoken, AllPartEvents;
    if item.Obj? && Id in item.fields && item.fields[Id].Str? && PartsOf(item.fields).Some? {
      PartsSpoken(PartsOf(item.fields).value, item.fields[Id].s, n);
    }
  }

  lemma {:induction false} PartsSpoken(parts: seq<Json>, id: string, output: nat)
    ensures AllPartEvents(parts, id, output).Some? <==> forall part | part in parts :: Spoken(part).Some?
  {
    hide Spoken;
    if parts != [] {
      var n := |parts| - 1;
      PartsSpoken(parts[..n], id, output);
      assert parts == parts[..n] + [parts[n]];
    }
  }

  /**
   * The four events of a part, each under the name the protocol gives its kind: the part with its text emptied, the whole
   * text as one delta, the text again, and the part itself.
   */
  lemma PartEventsAre(part: Json, at: Location)
    requires Spoken(part).Some?
    ensures var (es, refusal) := (PartEvents(part, at), part.fields[Type] == Str("refusal"));
            var (kind, field) := (if refusal then "refusal" else "output_text", if refusal then Refusal else Text);
            && |es| == 4 && part.fields[Type] == Str(kind)
            && es[0].PartAdded? && es[0].at == at && es[0].part == part.fields[field := Str("")]
            && es[1].TextDelta? && es[1].at == at && Str(es[1].delta) == part.fields[field]
            && es[2].TextDone? && es[2].at == at && Str(es[2].text) == part.fields[field]
            && es[3].PartDone? && es[3].at == at && es[3].part == part.fields
            && NameOf(es[0]) == "response.content_part.added" && NameOf(es[3]) == "response.content_part.done"
            && NameOf(es[1]) == "response." + kind + ".delta" && NameOf(es[2]) == "response." + kind + ".done"
  {
    assert "refusal"[0] != "output_text"[0];
    assert "response." + "refusal" + ".delta" == "response.refusal.delta";
    assert "response." + "refusal" + ".done" == "response.refusal.done";
    assert "response." + "output_text" + ".delta" == "response.output_text.delta";
    assert "response." + "output_text" + ".done" == "response.output_text.done";
  }

  /** The names of the events around the parts. */
  lemma OuterNames(response: Fields, output: nat, item: Fields)
    ensures NameOf(ResponseCreated(response)) == "response.created" && NameOf(ResponseCompleted(response)) == "response.completed"
    ensures NameOf(ItemAdded(output, item)) == "response.output_item.added"
    ensures NameOf(ItemDone(output, item)) == "response.output_item.done"
  {
  }

  // ----- main results -----

  /** Every message of the output says its content as a list. */
  predicate ContentListed(result: Fields)
    requires IsCompleted(result)
  {
    forall i | 0 <= i < |result[Output].items| && result[Output].items[i].Obj? && IsMessage(result[Output].items[i].fields) ::
      Get(result[Output].items[i].fields, Content).Some? && result[Output].items[i].fields[Content].Arr?
  }

  /**
   * The emitted events are always well nested and complete, and the client that believes only the deltas ends with the
   * result exactly when every message lists its content: a message without content comes back with an empty list.
   */
  lemma RebuildsIff(result: Fields)
    requires ResponseEvents(result).Some?
    ensures var c := ReceiveAll(WAITING, ResponseEvents(result).value);
            && c.Some? && c.value.completed && c.value.item.None? && |c.value.items| == |result[Output].items|
            && (c.value.items == result[Output].items <==> ContentListed(result))
            && (c.value.response == Some(result) <==> ContentListed(result))
  {
    hide ReceiveAll, AllItemEvents, Heard, ContentListed;
    RebuiltItems(result);
    HeardIff(result);
  }

  lemma CreatedReceived(result: Fields)
    ensures Receive(WAITING, ResponseCreated(Started(result))) == Some(WAITING.(response := Some(Started(result))))
  {
  }

  lemma CompletedReceived(c: Client, result: Fields)
    requires IsCompleted(result) && c.response == Some(Started(result)) && c.item.None? && !c.completed
    ensures var d := Receive(c, ResponseCompleted(result));
            && d.Some? && d.value.items == c.items && d.value.item.None? && d.value.completed
            && d.value.response == Some(result[Output := Arr(c.items)])
            && (d.value.response == Some(result) <==> c.items == result[Output].items)
  {
    var rebuilt := WithStatus(Started(result)[Output := Arr(c.items)], result);
    assert rebuilt == result[Output := Arr(c.items)];
    assert rebuilt[Output] == Arr(c.items) && result[Output] == Arr(result[Output].items);
    if c.items == result[Output].items {
      assert rebuilt == result;
    }
  }

  lemma HeardIff(result: Fields)
    requires IsCompleted(result) && forall i | 0 <= i < |result[Output].items| :: Hearable(result[Output].items[i])
    ensures AllHeard(result[Output].items) == result[Output].items <==> ContentListed(result)
  {
    hide IsMessage;
    var items := result[Output].items;
    forall i | 0 <= i < |items|
      ensures Hearable(items[i])
      ensures Heard(items[i]) == items[i] <==>
                (IsMessage(items[i].fields) ==> Get(items[i].fields, Content).Some? && items[i].fields[Content].Arr?)
    {
      HeardSame(items[i]);
    }
    if AllHeard(items) == items {
      assert forall i | 0 <= i < |items| :: AllHeard(items)[i] == items[i];
    }
  }

  lemma HeardSame(item: Json)
    requires Hearable(item)
    ensures Heard(item) == item <==>
              (IsMessage(item.fields) ==> Get(item.fields, Content).Some? && item.fields[Content].Arr?)
  {
    hide IsMessage;
    if IsMessage(item.fields) {
      if Content in item.fields && item.fields[Content].Arr? {
        assert item.fields[Content := item.fields[Content]] == item.fields;
      } else {
        assert Heard(item).fields[Content].Arr?;
      }
    }
  }

  /** A message without a content field comes back with an empty list, so the client never ends with the result. */
  lemma ContentInvented(result: Fields, k: nat)
    requires ResponseEvents(result).Some? && k < |result[Output].items|
    requires result[Output].items[k].Obj? && IsMessage(result[Output].items[k].fields) && Content !in result[Output].items[k].fields
    ensures var c := ReceiveAll(WAITING, ResponseEvents(result).value);
            && c.Some? && c.value.completed && c.value.response != Some(result)
            && |c.value.items| == |result[Output].items|
            && c.value.items[k] == Obj(result[Output].items[k].fields[Content := Arr([])]) != result[Output].items[k]
  {
    hide ReceiveAll, AllItemEvents, IsMessage, Heard;
    RebuildsIff(result);
    RebuiltItems(result);
    var item := result[Output].items[k];
    assert !ContentListed(result);
    HeardBare(item);
  }

  lemma HeardBare(item: Json)
    requires item.Obj? && IsMessage(item.fields) && Content !in item.fields
    ensures Hearable(item) && Heard(item) == Obj(item.fields[Content := Arr([])]) && Heard(item) != item
  {
    assert Content in item.fields[Content := Arr([])];
  }

  /** What a client that believes only the deltas has at the end. */
  lemma RebuiltItems(result: Fields)
    requires ResponseEvents(result).Some?
    ensures var items := result[Output].items;
            && (forall i | 0 <= i < |items| :: Hearable(items[i]))
            && var c := ReceiveAll(WAITING, ResponseEvents(result).value);
               && c.Some? && c.value.completed && c.value.item.None? && c.value.items == AllHeard(items)
               && c.value.response == Some(result[Output := Arr(AllHeard(items))])
               && (c.value.response == Some(result) <==> AllHeard(items) == items)
  {
    hide Receive, ReceiveAll, AllItemEvents, AllHeard;
    var items := result[Output].items;
    var inner := AllItemEvents(items).value;
    var c1 := WAITING.(response := Some(Started(result)));
    ReceiveOne(WAITING, ResponseCreated(Started(result)));
    CreatedReceived(result);
    ItemsReceived(c1, items);
    var c2 := c1.(items := AllHeard(items));
    ReceiveOne(c2, ResponseCompleted(result));
    CompletedReceived(c2, result);
    ReceiveConcat(WAITING, [ResponseCreated(Started(result))], inner);
    ReceiveConcat(WAITING, [ResponseCreated(Started(result))] + inner, [ResponseCompleted(result)]);
  }

  /** Such a result is accepted, whatever its ids and model. */
  lemma ContentlessAccepted(id: string, model: string, itemId: string)
    ensures var item := map[Type := Str(MESSAGE), Id := Str(itemId), Role := Str("assistant"), Status := Str(COMPLETED)];
            var result := map[Id := Str(id), Model := Str(model), Status := Str(COMPLETED), Output := Arr([Obj(item)])];
            && ResponseEvents(result).Some?
            && var c := ReceiveAll(WAITING, ResponseEvents(result).value);
               c.Some? && c.value.response == Some(result[Output := Arr([Obj(item[Content := Arr([])])])])
  {
    hide ReceiveAll;
    var item := Obj(map[Type := Str(MESSAGE), Id := Str(itemId), Role := Str("assistant"), Status := Str(COMPLETED)]);
    var result := map[Id := Str(id), Model := Str(model), Status := Str(COMPLETED), Output := Arr([item])];
    assert [item][..0] == [];
    assert PartsOf(item.fields) == Some([]) && AllPartEvents([], itemId, 0) == Some([]);
    assert ItemEvents(item, 0).Some? && AllItemEvents([]) == Some([]);
    assert AllItemEvents([item]).Some?;
    RebuiltItems(result);
    HeardBare(item);
    assert AllHeard([item]) == [Obj(item.fields[Content := Arr([])])];
  }

  /** What the client reads off the wire: each frame's name and numbered event, in contiguous order. */
  lemma WireReads(codec: Codec, result: Fields)
    requires codec.Lawful() && ResponseEvents(result).Some?
    ensures var events := ResponseEvents(result).value;
            var seen := EventStream.Interpret(EventStream.Stream(FramesOf(codec, events)));
            && |seen| == |events|
            && forall i | 0 <= i < |events| ::
                 seen[i].name == NameOf(events[i]) && codec.decode(seen[i].data) == Some((i, events[i]))
  {
    hide ResponseEvents, EventStream.Stream, EventStream.Interpret;
    var events := ResponseEvents(result).value;
    var frames := FramesOf(codec, events);
    forall i | 0 <= i < |frames| ensures EventStream.Plain(frames[i]) {
      NamesPlain(events[i]);
    }
    EventStream.Interpreted(frames);
  }

  lemma NamesPlain(e: ResponseEvent)
    ensures NameOf(e) != "" && EventStream.OneLine(NameOf(e))
  {
    hide NameOf;
    if e.TextDelta? || e.TextDone? { TextNamesPlain(e); }
    else if e.PartAdded? || e.PartDone? { PartNamesPlain(e); }
    else { OuterNamesPlain(e); }
  }

  lemma TextNamesPlain(e: ResponseEvent)
    requires e.TextDelta? || e.TextDone?
    ensures NameOf(e) != "" && EventStream.OneLine(NameOf(e))
  {
  }

  lemma PartNamesPlain(e: ResponseEvent)
    requires e.PartAdded? || e.PartDone?
    ensures NameOf(e) != "" && EventStream.OneLine(NameOf(e))
  {
  }

  lemma OuterNamesPlain(e: ResponseEvent)
    requires e.ResponseCreated? || e.ItemAdded? || e.ItemDone? || e.ResponseCompleted?
    ensures NameOf(e) != "" && EventStream.OneLine(NameOf(e))
  {
  }
}
