/** A completed chat response as a stream of chunks (benchmarks/worker_model_proxy.py, buffered_sse). */
module ChatStream {
  import opened Common
  import opened Json
  import EventStream

  type Fields = map<Key, Json>

  datatype Base = Base(id: Json, created: Json, model: Json)
  datatype ChunkChoice = ChunkChoice(index: Json, delta: Fields, finish: Json)
  datatype Chunk = Chunk(base: Base, choices: seq<ChunkChoice>, usage: Option<Json>)

  predicate Kept(key: Key) {
    key == Role || key == Content || key == Refusal || key == ToolCalls
  }

  /** The fields of a message that are passed on, before its tool calls are numbered. */
  function Passed(message: Fields): Fields {
    map key | key in message && Kept(key) && !message[key].Null? :: message[key]
  }

  /** Each tool call under its position; None raises. */
  function Numbered(calls: seq<Json>): Option<seq<Json>> {
    if calls == [] then Some([])
    else
      var n := |calls| - 1;
      var before := Numbered(calls[..n]);
      if before.None? || !calls[n].Obj? then None
      else Some(before.value + [Obj(calls[n].fields[Index := Int(n)])])
  }

  function DeltaOf(message: Fields): Option<Fields> {
    var delta := Passed(message);
    if ToolCalls !in delta then Some(delta)
    else if Elements(delta[ToolCalls]).None? then None
    else
      var calls := Numbered(Elements(delta[ToolCalls]).value);
      if calls.None? then None else Some(delta[ToolCalls := Arr(calls.value)])
  }

  /** The two chunks of one choice; None raises. */
  function ChoiceChunks(base: Base, choice: Json): Option<seq<Chunk>> {
    if !choice.Obj? || Get(choice.fields, Message).None? || !choice.fields[Message].Obj?
       || Index !in choice.fields || FinishReason !in choice.fields then None
    else
      var delta := DeltaOf(choice.fields[Message].fields);
      if delta.None? then None
      else Some([Chunk(base, [ChunkChoice(choice.fields[Index], delta.value, Null)], None),
                 Chunk(base, [ChunkChoice(choice.fields[Index], map[], choice.fields[FinishReason])], None)])
  }

  function AllChoiceChunks(base: Base, choices: seq<Json>): Option<seq<Chunk>> {
    if choices == [] then Some([])
    else
      var n := |choices| - 1;
      var before := AllChoiceChunks(base, choices[..n]);
      var last := ChoiceChunks(base, choices[n]);
      if before.None? || last.None? then None else Some(before.value + last.value)
  }

  function BaseOf(result: Fields): Option<Base> {
    if Id in result && Created in result && Model in result
    then Some(Base(result[Id], result[Created], result[Model])) else None
  }

  function ChoicesOf(result: Fields): Option<seq<Json>> {
    if Choices in result then Elements(result[Choices]) else None
  }

  function Chunks(result: Fields): Option<seq<Chunk>> {
    if BaseOf(result).None? || ChoicesOf(result).None? then None
    else
      var base := BaseOf(result).value;
      var inner := AllChoiceChunks(base, ChoicesOf(result).value);
      if inner.None? then None
      else Some(inner.value + if Usage in result then [Chunk(base, [], Some(result[Usage]))] else [])
  }

  /** The JSON text of a chunk, and back. */
  datatype Codec = Codec(encode: Chunk -> string, decode: string -> Option<Chunk>) {
    ghost predicate Lawful() {
      forall c: Chunk :: decode(encode(c)) == Some(c) && EventStream.OneLine(encode(c))
    }
  }

  const DONE := EventStream.Frame(None, "[DONE]")

  function FramesOf(codec: Codec, chunks: seq<Chunk>): seq<EventStream.Frame> {
    seq(|chunks|, i requires 0 <= i < |chunks| => EventStream.Frame(None, codec.encode(chunks[i]))) + [DONE]
  }

  method BufferedSse(codec: Codec, result: Fields) returns (raw: Option<string>)
    ensures raw == if Chunks(result).None? then None
                   else Some(EventStream.Stream(FramesOf(codec, Chunks(result).value)))
  {
    hide EventStream.Stream, ChoiceChunks, Elements;
    if BaseOf(result).None? || ChoicesOf(result).None? { return None; }
    var base, choices := BaseOf(result).value, ChoicesOf(result).value;
    var frames: seq<Chunk> := [];
    assert choices[..0] == [];
    for i := 0 to |choices|
      invariant AllChoiceChunks(base, choices[..i]) == Some(frames)
    {
      ChoicePrefix(base, choices, i);
      var emitted := ChoiceChunks(base, choices[i]);
      if emitted.None? { return None; }
      frames := frames + emitted.value;
    }
    assert choices[..|choices|] == choices && frames + [] == frames;
    if Usage in result { frames := frames + [Chunk(base, [], Some(result[Usage]))]; }
    return Some(EventStream.Stream(FramesOf(codec, frames)));
  }

  lemma {:induction false} ChoicePrefix(base: Base, choices: seq<Json>, i: nat)
    requires i < |choices|
    ensures choices[..i + 1][..i] == choices[..i] && choices[..i + 1][i] == choices[i]
    ensures AllChoiceChunks(base, choices[..i]).None? || ChoiceChunks(base, choices[i]).None? ==>
              AllChoiceChunks(base, choices).None?
    decreases |choices|
  {
    hide ChoiceChunks;
    var n := |choices| - 1;
    if i < n {
      ChoicePrefix(base, choices[..n], i);
      assert choices[..n][..i] == choices[..i];
    }
  }

  // ----- a client that accumulates deltas by choice index -----

  /** A choice under way; its tool calls are kept by position, without their index field. */
  datatype Built = Built(index: Json, fields: Fields, calls: Option<seq<Fields>>, finish: Json)
  datatype Client = Client(choices: seq<Built>, usage: Option<Json>)

  const NOTHING := Client([], None)

  function Find(choices: seq<Built>, index: Json): (at: Option<nat>)
    ensures at.Some? ==> at.value < |choices| && choices[at.value].index == index
    ensures at.None? ==> forall i | 0 <= i < |choices| :: choices[i].index != index
  {
    if choices == [] then None
    else if choices[|choices| - 1].index == index then Some(|choices| - 1)
    else Find(choices[..|choices| - 1], index)
  }

  /** Texts are appended to what came before; anything else replaces it. */
  function Joined(before: Json, after: Json): Json {
    if before.Str? && after.Str? then Str(before.s + after.s) else after
  }

  function Accumulated(fields: Fields, delta: Fields): Fields {
    map key | key in fields.Keys + delta.Keys && key != ToolCalls ::
      if key !in delta then fields[key] else if key !in fields then delta[key] else Joined(fields[key], delta[key])
  }

  /** One numbered tool call joins the call at its position, or starts the next one. */
  function Called(calls: seq<Fields>, call: Json): seq<Fields> {
    if !call.Obj? || Get(call.fields, Index).None? || !call.fields[Index].Int? then calls
    else
      var n, rest := call.fields[Index].n, call.fields - {Index};
      if n == |calls| then calls + [rest] else if 0 <= n < |calls| then calls[n := calls[n] + rest] else calls
  }

  function CalledAll(calls: seq<Fields>, more: seq<Json>): seq<Fields> {
    if more == [] then calls else Called(CalledAll(calls, more[..|more| - 1]), more[|more| - 1])
  }

  function Extended(b: Built, c: ChunkChoice): Built {
    var calls := if ToolCalls in c.delta && c.delta[ToolCalls].Arr?
                 then Some(CalledAll(if b.calls.Some? then b.calls.value else [], c.delta[ToolCalls].items)) else b.calls;
    Built(b.index, Accumulated(b.fields, c.delta), calls, if c.finish.Null? then b.finish else c.finish)
  }

  function Heard(choices: seq<Built>, c: ChunkChoice): seq<Built> {
    var at := Find(choices, c.index);
    if at.Some? then choices[at.value := Extended(choices[at.value], c)]
    else choices + [Extended(Built(c.index, map[], None, Null), c)]
  }

  function HeardAll(choices: seq<Built>, cs: seq<ChunkChoice>): seq<Built> {
    if cs == [] then choices else Heard(HeardAll(choices, cs[..|cs| - 1]), cs[|cs| - 1])
  }

  function Read(client: Client, chunk: Chunk): Client {
    Client(HeardAll(client.choices, chunk.choices), if chunk.usage.Some? then chunk.usage else client.usage)
  }

  function ReadAll(client: Client, chunks: seq<Chunk>): Client {
    if chunks == [] then client else Read(ReadAll(client, chunks[..|chunks| - 1]), chunks[|chunks| - 1])
  }

  // ----- what the client should end with -----

  predicate Readable(choice: Json) {
    && choice.Obj? && Get(choice.fields, Message).Some? && choice.fields[Message].Obj?
    && Index in choice.fields && FinishReason in choice.fields
    && DeltaOf(choice.fields[Message].fields).Some?
  }

  /** The tool calls of a message less their index fields, if it makes any. */
  function CallsOf(message: Fields): Option<seq<Fields>>
    requires DeltaOf(message).Some?
  {
    if ToolCalls !in message || message[ToolCalls] == Null then None
    else
      var calls := Elements(message[ToolCalls]).value;
      NumberedObjects(calls);
      Some(seq(|calls|, i requires 0 <= i < |calls| && calls[i].Obj? => calls[i].fields - {Index}))
  }

  lemma {:induction false} NumberedObjects(calls: seq<Json>)
    requires Numbered(calls).Some?
    ensures |Numbered(calls).value| == |calls|
    ensures forall i | 0 <= i < |calls| :: calls[i].Obj? && Numbered(calls).value[i] == Obj(calls[i].fields[Index := Int(i)])
  {
    if calls != [] {
      NumberedObjects(calls[..|calls| - 1]);
    }
  }

  /** The role, content and refusal a message has. */
  function Said(message: Fields): Fields {
    map key | key in message && key in {Role, Content, Refusal} && message[key] != Null :: message[key]
  }

  /** Role, content, refusal and tool calls of one choice, as the response has them. */
  function Original(choice: Json): Built
    requires Readable(choice)
  {
    var message := choice.fields[Message].fields;
    Built(choice.fields[Index], Said(message), CallsOf(message), choice.fields[FinishReason])
  }

  function Originals(choices: seq<Json>): seq<Built>
    requires forall i | 0 <= i < |choices| :: Readable(choices[i])
  {
    seq(|choices|, i requires 0 <= i < |choices| && Readable(choices[i]) => Original(choices[i]))
  }

  predicate Distinct(choices: seq<Built>) {
    forall i, j | 0 <= i < j < |choices| :: choices[i].index != choices[j].index
  }

  lemma HeardDistinct(choices: seq<Built>, c: ChunkChoice)
    requires Distinct(choices)
    ensures Distinct(Heard(choices, c))
  {
    hide Extended;
    assert forall b: Built :: Extended(b, c).index == b.index by { ExtendedIndex(c); }
  }

  lemma ExtendedIndex(c: ChunkChoice)
    ensures forall b: Built :: Extended(b, c).index == b.index
  {
    hide Accumulated, CalledAll;
  }

  lemma {:induction false} HeardAllDistinct(choices: seq<Built>, cs: seq<ChunkChoice>)
    requires Distinct(choices)
    ensures Distinct(HeardAll(choices, cs))
  {
    hide Heard, Distinct;
    if cs != [] {
      HeardAllDistinct(choices, cs[..|cs| - 1]);
      HeardDistinct(HeardAll(choices, cs[..|cs| - 1]), cs[|cs| - 1]);
    }
  }

  /** Whatever arrives, no index has two entries. */
  lemma {:induction false} ReadAllDistinct(client: Client, chunks: seq<Chunk>)
    requires Distinct(client.choices)
    ensures Distinct(ReadAll(client, chunks).choices)
  {
    hide HeardAll, Distinct;
    if chunks != [] {
      ReadAllDistinct(client, chunks[..|chunks| - 1]);
      HeardAllDistinct(ReadAll(client, chunks[..|chunks| - 1]).choices, chunks[|chunks| - 1].choices);
    }
  }

  lemma {:induction false} CallsRebuilt(calls: seq<Json>)
    requires Numbered(calls).Some?
    ensures var rebuilt := CalledAll([], Numbered(calls).value);
            && |rebuilt| == |calls|
            && forall i | 0 <= i < |calls| :: calls[i].Obj? && rebuilt[i] == calls[i].fields - {Index}
  {
    NumberedObjects(calls);
    if calls != [] {
      var n := |calls| - 1;
      CallsRebuilt(calls[..n]);
      var numbered := Numbered(calls).value;
      assert numbered[..n] == Numbered(calls[..n]).value;
      CalledNext(CalledAll([], numbered[..n]), calls[n].fields);
    }
  }

  lemma CalledNext(calls: seq<Fields>, call: Fields)
    ensures Called(calls, Obj(call[Index := Int(|calls|)])) == calls + [call - {Index}]
  {
    assert call[Index := Int(|calls|)] - {Index} == call - {Index};
  }

  /** The first chunk of a choice rebuilds its message, and the second only closes it. */
  lemma ChoiceRebuilt(choice: Json, delta: Fields)
    requires Readable(choice) && DeltaOf(choice.fields[Message].fields) == Some(delta)
    ensures var index, finish := choice.fields[Index], choice.fields[FinishReason];
            var first := Extended(Built(index, map[], None, Null), ChunkChoice(index, delta, Null));
            Extended(first, ChunkChoice(index, map[], finish)) == Original(choice)
  {
    hide Elements, CalledAll;
    var index, message := choice.fields[Index], choice.fields[Message].fields;
    FieldsRebuilt(message, delta);
    var first := Extended(Built(index, map[], None, Null), ChunkChoice(index, delta, Null));
    assert Accumulated(first.fields, map[]) == first.fields;
    if ToolCalls in message && message[ToolCalls] != Null {
      CallsSame(message, delta);
    }
  }

  lemma CallsSame(message: Fields, delta: Fields)
    requires DeltaOf(message) == Some(delta) && ToolCalls in Passed(message)
    ensures ToolCalls in delta && delta[ToolCalls].Arr? && Some(CalledAll([], delta[ToolCalls].items)) == CallsOf(message)
  {
    hide CalledAll, Elements;
    var calls := Elements(message[ToolCalls]).value;
    CallsRebuilt(calls);
    assert CalledAll([], Numbered(calls).value) == CallsOf(message).value;
  }

  lemma FieldsRebuilt(message: Fields, delta: Fields)
    requires DeltaOf(message) == Some(delta)
    ensures Accumulated(map[], delta) == Said(message)
  {
  }

  lemma ChoiceHeard(built: seq<Built>, base: Base, choice: Json)
    requires Readable(choice) && Find(built, choice.fields[Index]).None?
    ensures var chunks := ChoiceChunks(base, choice).value;
            forall client: Client | client.choices == built ::
              ReadAll(client, chunks) == Client(built + [Original(choice)], client.usage)
  {
    hide Extended, DeltaOf, Original;
    var index, finish := choice.fields[Index], choice.fields[FinishReason];
    var delta := DeltaOf(choice.fields[Message].fields).value;
    var c1, c2 := ChunkChoice(index, delta, Null), ChunkChoice(index, map[], finish);
    var chunks := ChoiceChunks(base, choice).value;
    ChoiceRebuilt(choice, delta);
    ExtendedIndex(c1);
    var first := Extended(Built(index, map[], None, Null), c1);
    assert Heard(built, c1) == built + [first];
    assert Find(built + [first], index) == Some(|built|);
    assert Heard(built + [first], c2) == built + [Original(choice)];
    HeardOne(built, c1);
    HeardOne(built + [first], c2);
    forall client: Client | client.choices == built
      ensures ReadAll(client, chunks) == Client(built + [Original(choice)], client.usage)
    {
      ReadTwo(client, chunks[0], chunks[1]);
    }
  }

  lemma HeardOne(choices: seq<Built>, c: ChunkChoice)
    ensures HeardAll(choices, [c]) == Heard(choices, c)
  {
    assert [c][..0] == [] && HeardAll(choices, []) == choices;
  }

  lemma ReadTwo(client: Client, a: Chunk, b: Chunk)
    ensures ReadAll(client, [a, b]) == Read(Read(client, a), b)
  {
    hide Read;
    assert [a, b][..1] == [a] && [a][..0] == [] && ReadAll(client, []) == client;
    assert ReadAll(client, [a]) == Read(client, a);
  }

  lemma {:induction false} ReadConcat(client: Client, a: seq<Chunk>, b: seq<Chunk>)
    ensures ReadAll(client, a + b) == ReadAll(ReadAll(client, a), b)
  {
    hide Read;
    if b == [] {
      assert a + b == a;
    } else {
      ReadConcat(client, a, b[..|b| - 1]);
      assert (a + b)[..|a + b| - 1] == a + b[..|b| - 1];
    }
  }

  lemma {:induction false} ChunksReadable(base: Base, choices: seq<Json>)
    requires AllChoiceChunks(base, choices).Some?
    ensures forall i | 0 <= i < |choices| :: Readable(choices[i])
  {
    hide DeltaOf;
    if choices != [] {
      ChunksReadable(base, choices[..|choices| - 1]);
      assert forall i | 0 <= i < |choices| - 1 :: choices[i] == choices[..|choices| - 1][i];
    }
  }

  lemma {:induction false} ChoicesHeard(base: Base, choices: seq<Json>)
    requires AllChoiceChunks(base, choices).Some?
    requires forall i | 0 <= i < |choices| :: Readable(choices[i])
    requires Distinct(Originals(choices))
    ensures ReadAll(NOTHING, AllChoiceChunks(base, choices).value) == Client(Originals(choices), None)
  {
    hide Original, Readable, ChoiceChunks, Read;
    if choices != [] {
      var n := |choices| - 1;
      var front := choices[..n];
      assert Originals(choices) == Originals(front) + [Original(choices[n])];
      assert forall i | 0 <= i < n :: Originals(front)[i] == Originals(choices)[i];
      ChoicesHeard(base, front);
      OriginalIndex(choices[n]);
      FindNone(Originals(front), Original(choices[n]));
      ChoiceHeard(Originals(front), base, choices[n]);
      ReadConcat(NOTHING, AllChoiceChunks(base, front).value, ChoiceChunks(base, choices[n]).value);
    }
  }

  lemma OriginalIndex(choice: Json)
    requires Readable(choice)
    ensures Original(choice).index == choice.fields[Index]
  {
  }

  lemma FindNone(built: seq<Built>, b: Built)
    requires Distinct(built + [b])
    ensures Find(built, b.index).None?
  {
    var all := built + [b];
    assert all[|built|] == b;
    assert forall i | 0 <= i < |built| :: all[i] == built[i];
  }

  // ----- main results -----

  /** The client rebuilds every choice, in order, exactly when no two choices share an index; usage always survives. */
  lemma ChatRebuildsIff(result: Fields)
    requires Chunks(result).Some?
    ensures var choices := ChoicesOf(result).value;
            && (forall i | 0 <= i < |choices| :: Readable(choices[i]))
            && var client := ReadAll(NOTHING, Chunks(result).value);
            && (client.choices == Originals(choices) <==> Distinct(Originals(choices)))
            && client.usage == Get(result, Usage)
  {
    hide Read, Original, Readable, Elements;
    var base, choices := BaseOf(result).value, ChoicesOf(result).value;
    var inner := AllChoiceChunks(base, choices).value;
    ChunksReadable(base, choices);
    ReadAllDistinct(NOTHING, Chunks(result).value);
    NoUsage(base, choices);
    UsageRead(result, base, inner);
    if Distinct(Originals(choices)) {
      ChoicesHeard(base, choices);
    }
  }

  lemma UsageRead(result: Fields, base: Base, inner: seq<Chunk>)
    requires ReadAll(NOTHING, inner).usage.None?
    ensures var last := if Usage in result then [Chunk(base, [], Some(result[Usage]))] else [];
            ReadAll(NOTHING, inner + last) == Client(ReadAll(NOTHING, inner).choices, Get(result, Usage))
  {
    var last := if Usage in result then [Chunk(base, [], Some(result[Usage]))] else [];
    ReadConcat(NOTHING, inner, last);
    var client := ReadAll(NOTHING, inner);
    if Usage in result {
      assert last[..0] == [] && ReadAll(client, []) == client;
    }
  }

  lemma {:induction false} NoUsage(base: Base, choices: seq<Json>)
    requires AllChoiceChunks(base, choices).Some?
    ensures ReadAll(NOTHING, AllChoiceChunks(base, choices).value).usage.None?
  {
    hide HeardAll, DeltaOf;
    if choices != [] {
      var n := |choices| - 1;
      NoUsage(base, choices[..n]);
      var last := ChoiceChunks(base, choices[n]).value;
      var client := ReadAll(NOTHING, AllChoiceChunks(base, choices[..n]).value);
      ReadConcat(NOTHING, AllChoiceChunks(base, choices[..n]).value, last);
      ReadTwo(client, last[0], last[1]);
    }
  }

  function Answer(index: int, text: string): Json {
    Obj(map[Index := Int(index), Message := Obj(map[Role := Str("assistant"), Content := Str(text)]), FinishReason := Str("stop")])
  }

  /** Two answers under one index are accepted, and every client makes one choice of them, its text the one after the other. */
  lemma SharedIndexMerges(id: string, created: int, model: string, index: int, one: string, two: string)
    ensures var result := map[Id := Str(id), Created := Int(created), Model := Str(model),
                              Choices := Arr([Answer(index, one), Answer(index, two)])];
            && Chunks(result).Some? && Readable(Answer(index, one)) && Readable(Answer(index, two))
            && var choices := ReadAll(NOTHING, Chunks(result).value).choices;
               && |choices| == 1 && choices[0].index == Int(index) && choices[0].finish == Str("stop")
               && Get(choices[0].fields, Content) == Some(Str(one + two))
               && choices != Originals([Answer(index, one), Answer(index, two)])
  {
    hide ReadAll, DeltaOf, Read, Original;
    var base := Base(Str(id), Int(created), Str(model));
    var first, second := Answer(index, one), Answer(index, two);
    AnswerChunks(base, index, one);
    AnswerChunks(base, index, two);
    assert [first, second][..1] == [first] && [first][..0] == [];
    var a, b := ChoiceChunks(base, first).value, ChoiceChunks(base, second).value;
    assert AllChoiceChunks(base, []) == Some([]) && [] + a == a;
    assert AllChoiceChunks(base, [first]) == Some(a);
    assert AllChoiceChunks(base, [first, second]) == Some(a + b);
    assert a + b + [] == a + b;
    ReadConcat(NOTHING, a, b);
    assert Find([], Int(index)).None?;
    ChoiceHeard([], base, first);
    assert [] + [Original(first)] == [Original(first)];
    AnswerJoins(base, index, one, two);
  }

  function AnswerDelta(text: string): Fields {
    map[Role := Str("assistant"), Content := Str(text)]
  }

  lemma AnswerChunks(base: Base, index: int, text: string)
    ensures DeltaOf(AnswerDelta(text)) == Some(AnswerDelta(text)) && Readable(Answer(index, text))
    ensures ChoiceChunks(base, Answer(index, text)) ==
              Some([Chunk(base, [ChunkChoice(Int(index), AnswerDelta(text), Null)], None),
                    Chunk(base, [ChunkChoice(Int(index), map[], Str("stop"))], None)])
    ensures Original(Answer(index, text)) == Built(Int(index), AnswerDelta(text), None, Str("stop"))
  {
    assert Passed(AnswerDelta(text)) == AnswerDelta(text);
    assert AnswerDelta(text) - {ToolCalls} == AnswerDelta(text);
  }

  /** A second answer under the index of the first one joins it. */
  lemma AnswerJoins(base: Base, index: int, one: string, two: string)
    ensures ChoiceChunks(base, Answer(index, two)).Some? && Readable(Answer(index, one))
    ensures var client := ReadAll(Client([Original(Answer(index, one))], None), ChoiceChunks(base, Answer(index, two)).value);
            && |client.choices| == 1 && client.choices[0].index == Int(index) && client.choices[0].finish == Str("stop")
            && Get(client.choices[0].fields, Content) == Some(Str(one + two))
  {
    hide DeltaOf, ReadAll, Original, Answer, Extended, Find;
    AnswerChunks(base, index, one);
    AnswerChunks(base, index, two);
    var chunks := ChoiceChunks(base, Answer(index, two)).value;
    var built := Built(Int(index), AnswerDelta(one), None, Str("stop"));
    var delta, end := ChunkChoice(Int(index), AnswerDelta(two), Null), ChunkChoice(Int(index), map[], Str("stop"));
    ReadTwo(Client([built], None), chunks[0], chunks[1]);
    AnswerExtended(index, one, two);
    HeardAlone(built, delta);
    HeardAlone(Extended(built, delta), end);
  }

  lemma HeardAlone(built: Built, c: ChunkChoice)
    requires built.index == c.index
    ensures HeardAll([built], [c]) == [Extended(built, c)]
  {
    hide Extended;
    HeardOne([built], c);
    assert Find([built], c.index) == Some(0);
  }

  lemma AnswerExtended(index: int, one: string, two: string)
    ensures var built := Built(Int(index), AnswerDelta(one), None, Str("stop"));
            var joined := Extended(built, ChunkChoice(Int(index), AnswerDelta(two), Null));
            var ended := Extended(joined, ChunkChoice(Int(index), map[], Str("stop")));
            && joined.index == Int(index) && ended.index == Int(index) && ended.finish == Str("stop")
            && Get(ended.fields, Content) == Some(Str(one + two))
  {
  }

  /** What the client reads off the wire: each chunk, then the end marker. */
  lemma WireReads(codec: Codec, result: Fields)
    requires codec.Lawful() && Chunks(result).Some?
    ensures var chunks := Chunks(result).value;
            var seen := EventStream.Interpret(EventStream.Stream(FramesOf(codec, chunks)));
            && |seen| == |chunks| + 1 && seen[|chunks|].data == "[DONE]"
            && forall i | 0 <= i < |chunks| :: codec.decode(seen[i].data) == Some(chunks[i])
  {
    hide Chunks, EventStream.Stream, EventStream.Interpret;
    EventStream.Interpreted(FramesOf(codec, Chunks(result).value));
  }
}
