/** Token usage gathered from the JSON events of an answer. */
module Usage {
  import opened Wrappers
  import opened Json

  // ---------- Reading counts ----------

  function IntField(u: Fields, key: string): Option<int> {
    if key in u && u[key].Num? then Some(u[key].n) else None
  }

  function IntFieldEither(u: Fields, first: string, second: string): Option<int> {
    if IntField(u, first).Some? then IntField(u, first) else IntField(u, second)
  }

  function NestedInt(u: Fields, outer: string, inner: string): Option<int> {
    if outer in u && u[outer].Object? then IntField(u[outer].fields, inner) else None
  }

  /** Two's complement addition and subtraction on 64 bits. */
  function Wrap(x: int): (w: int)
    ensures -0x8000_0000_0000_0000 <= w < 0x8000_0000_0000_0000
    ensures -0x8000_0000_0000_0000 <= x < 0x8000_0000_0000_0000 ==> w == x
  {
    (x + 0x8000_0000_0000_0000) % 0x1_0000_0000_0000_0000 - 0x8000_0000_0000_0000
  }

  function Amount(v: Option<int>): int {
    if v.Some? then v.value else 0
  }

  // ---------- The accumulator ----------

  datatype Completeness = Unavailable | Partial | Complete

  datatype Usage = Usage(
    totalInput: Option<int>, inputUncached: Option<int>, cacheRead: Option<int>, cacheWrite: Option<int>,
    outputTokens: Option<int>, reasoningTokens: Option<int>, totalTokens: Option<int>,
    raw: Option<Fields>, state: Completeness)

  const NO_USAGE := Usage(None, None, None, None, None, None, None, None, Unavailable)

  type Reader = Fields -> Option<int>

  function Field(key: string): Reader {
    (u: Fields) => IntField(u, key)
  }

  const READ := Field("cache_read_input_tokens")
  const WRITTEN := Field("cache_creation_input_tokens")
  const UNCACHED := Field("input_tokens")
  const OUTPUT := Field("output_tokens")
  const TOTAL := Field("total_tokens")
  const INPUT: Reader := u => IntFieldEither(u, "prompt_tokens", "input_tokens")
  const COMPLETION: Reader := u => IntFieldEither(u, "completion_tokens", "output_tokens")
  const REASONING: Reader := u => NestedInt(u, "completion_tokens_details", "reasoning_tokens")
  const CACHED: Reader := u =>
    if NestedInt(u, "input_tokens_details", "cached_tokens").Some?
    then NestedInt(u, "input_tokens_details", "cached_tokens")
    else NestedInt(u, "prompt_tokens_details", "cached_tokens")

  function Or(newer: Option<int>, earlier: Option<int>): Option<int> {
    if newer.Some? then newer else earlier
  }

  function StateOf(hasInput: bool, hasOutput: bool): Completeness {
    if hasInput && hasOutput then Complete else Partial
  }

  function SeenAnthropic(a: Usage, u: Fields): Usage {
    var uncached, read := Or(UNCACHED(u), a.inputUncached), Or(READ(u), a.cacheRead);
    var written := Or(WRITTEN(u), a.cacheWrite);
    a.(raw := Some(u), inputUncached := uncached, cacheRead := read, cacheWrite := written,
       outputTokens := Or(OUTPUT(u), a.outputTokens),
       totalInput := if UNCACHED(u).Some? || READ(u).Some? || WRITTEN(u).Some?
                     then Some(Wrap(Wrap(Amount(uncached) + Amount(read)) + Amount(written)))
                     else a.totalInput,
       state := StateOf(UNCACHED(u).Some?, OUTPUT(u).Some?))
  }

  function Floor(x: int): int { if x < 0 then 0 else x }

  /** The input of one object less the cached part that this object reports. */
  function UncachedIn(u: Fields): Option<int> {
    if INPUT(u).Some? then Some(Floor(Wrap(INPUT(u).value - Amount(CACHED(u))))) else None
  }

  function SeenOpenAI(a: Usage, u: Fields): Usage {
    a.(raw := Some(u),
       totalInput := Or(INPUT(u), a.totalInput),
       outputTokens := Or(COMPLETION(u), a.outputTokens),
       cacheRead := Or(CACHED(u), a.cacheRead),
       inputUncached := Or(UncachedIn(u), a.inputUncached),
       reasoningTokens := Or(REASONING(u), a.reasoningTokens),
       totalTokens := Or(TOTAL(u), a.totalTokens),
       state := StateOf(INPUT(u).Some?, COMPLETION(u).Some?))
  }

  function Seen(anthropic: bool, a: Usage, u: Fields): Usage {
    if anthropic then SeenAnthropic(a, u) else SeenOpenAI(a, u)
  }

  /** The usage objects of one event, in the order they are looked at; an event that does
      not parse, or is no object, has none. */
  function ObjectsOf(data: Option<Json>): seq<Fields> {
    if data.None? || !data.value.Object? then []
    else
      var root := data.value.fields;
      UsageIn(root) +
      if "message" in root && root["message"].Object? then UsageIn(root["message"].fields) else []
  }

  function UsageIn(fields: Fields): seq<Fields> {
    if "usage" in fields && fields["usage"].Object? then [fields["usage"].fields] else []
  }

  function SeenAll(anthropic: bool, objects: seq<Fields>, n: nat): Usage
    requires n <= |objects|
  {
    if n == 0 then NO_USAGE else Seen(anthropic, SeenAll(anthropic, objects, n - 1), objects[n - 1])
  }

  class UsageAccumulator {
    const anthropic: bool
    var usage: Usage
    ghost var objects: seq<Fields>

    /** The usage is what the objects met so far add up to. */
    ghost predicate Valid()
      reads this
    {
      usage == SeenAll(anthropic, objects, |objects|)
    }

    constructor (protocol: string)
      ensures Valid() && objects == [] && anthropic == (protocol == "anthropic")
    {
      anthropic := protocol == "anthropic";
      usage := NO_USAGE;
      objects := [];
    }

    method ObserveJSON(data: Option<Json>)
      requires Valid()
      modifies this
      ensures Valid() && objects == old(objects) + ObjectsOf(data)
    {
      if data.None? || !data.value.Object? {
        return;
      }
      var root := data.value.fields;
      if "usage" in root && root["usage"].Object? {
        ObserveUsage(root["usage"].fields);
      }
      if "message" in root && root["message"].Object? {
        var message := root["message"].fields;
        if "usage" in message && message["usage"].Object? {
          ObserveUsage(message["usage"].fields);
        }
      }
    }

    method ObserveUsage(u: Fields)
      requires Valid()
      modifies this
      ensures Valid() && objects == old(objects) + [u]
    {
      ghost var was := usage;
      usage := usage.(raw := Some(u));
      if anthropic {
        ObserveAnthropic(u);
      } else {
        ObserveOpenAI(u);
      }
      SeenOneMore(anthropic, objects, u);
      objects := objects + [u];
    }

    method ObserveAnthropic(u: Fields)
      modifies this`usage
      ensures usage == SeenAnthropic(old(usage), u).(raw := old(usage).raw)
    {
      var uncached, read := IntField(u, "input_tokens"), IntField(u, "cache_read_input_tokens");
      var written, output := IntField(u, "cache_creation_input_tokens"), IntField(u, "output_tokens");
      if uncached.Some? {
        usage := usage.(inputUncached := uncached);
      }
      if read.Some? {
        usage := usage.(cacheRead := read);
      }
      if written.Some? {
        usage := usage.(cacheWrite := written);
      }
      if output.Some? {
        usage := usage.(outputTokens := output);
      }
      if uncached.Some? || read.Some? || written.Some? {
        var total := Wrap(Wrap(Amount(usage.inputUncached) + Amount(usage.cacheRead)) + Amount(usage.cacheWrite));
        usage := usage.(totalInput := Some(total));
      }
      usage := usage.(state := if uncached.Some? && output.Some? then Complete else Partial);
    }

    /** The cached input tokens: of the two detail objects, the later one that has them. */
    method CachedTokens(u: Fields) returns (cached: Option<int>)
      ensures cached == CACHED(u)
    {
      cached := None;
      var names := ["prompt_tokens_details", "input_tokens_details"];
      for i := 0 to |names|
        invariant cached == if i == 0 then None
                            else if i == 1 then NestedInt(u, "prompt_tokens_details", "cached_tokens")
                            else CACHED(u)
      {
        if names[i] in u && u[names[i]].Object? {
          var v := IntField(u[names[i]].fields, "cached_tokens");
          if v.Some? {
            cached := v;
          }
        }
      }
    }

    method ObserveOpenAI(u: Fields)
      modifies this`usage
      ensures usage == SeenOpenAI(old(usage), u).(raw := old(usage).raw)
    {
      var input := IntFieldEither(u, "prompt_tokens", "input_tokens");
      var output := IntFieldEither(u, "completion_tokens", "output_tokens");
      if input.Some? {
        usage := usage.(totalInput := input);
      }
      if output.Some? {
        usage := usage.(outputTokens := output);
      }
      var cached := CachedTokens(u);
      if cached.Some? {
        usage := usage.(cacheRead := cached);
      }
      if input.Some? {
        var uncached := Wrap(input.value - Amount(cached));
        if uncached < 0 {
          uncached := 0;
        }
        usage := usage.(inputUncached := Some(uncached));
      }
      var reasoning := NestedInt(u, "completion_tokens_details", "reasoning_tokens");
      if reasoning.Some? {
        usage := usage.(reasoningTokens := reasoning);
      }
      var total := IntField(u, "total_tokens");
      if total.Some? {
        usage := usage.(totalTokens := total);
      }
      usage := usage.(state := if input.Some? && output.Some? then Complete else Partial);
    }
  }

  lemma {:induction false} SeenPrefix(anthropic: bool, objects: seq<Fields>, more: seq<Fields>, n: nat)
    requires n <= |objects|
    ensures SeenAll(anthropic, objects + more, n) == SeenAll(anthropic, objects, n)
  {
    if n > 0 {
      SeenPrefix(anthropic, objects, more, n - 1);
    }
  }

  lemma SeenOneMore(anthropic: bool, objects: seq<Fields>, u: Fields)
    ensures SeenAll(anthropic, objects + [u], |objects| + 1)
            == Seen(anthropic, SeenAll(anthropic, objects, |objects|), u)
  {
    SeenPrefix(anthropic, objects, [u], |objects|);
  }

  // ---------- The last value present ----------

  function Last(objects: seq<Fields>, n: nat, reader: Reader): Option<int>
    requires n <= |objects|
  {
    if n == 0 then None
    else if reader(objects[n - 1]).Some? then reader(objects[n - 1])
    else Last(objects, n - 1, reader)
  }

  /** The last object in which the reader finds a value. */
  function LastWith(objects: seq<Fields>, n: nat, reader: Reader): Option<Fields>
    requires n <= |objects|
  {
    if n == 0 then None
    else if reader(objects[n - 1]).Some? then Some(objects[n - 1])
    else LastWith(objects, n - 1, reader)
  }

  /** Anthropic: each part is the last value present; the total is absent exactly when all
      three parts are, and otherwise the sum of their latest values. */
  lemma {:induction false} AnthropicExactly(objects: seq<Fields>, n: nat)
    requires n <= |objects|
    ensures var a := SeenAll(true, objects, n);
            var uncached, read := Last(objects, n, UNCACHED), Last(objects, n, READ);
            var written := Last(objects, n, WRITTEN);
            && a.inputUncached == uncached && a.cacheRead == read && a.cacheWrite == written
            && a.outputTokens == Last(objects, n, OUTPUT)
            && a.totalInput == (if uncached.None? && read.None? && written.None? then None
                                else Some(Wrap(Wrap(Amount(uncached) + Amount(read)) + Amount(written))))
            && a.reasoningTokens == None && a.totalTokens == None
  {
    if n > 0 {
      AnthropicExactly(objects, n - 1);
    }
  }

  /** OpenAI: each of these fields is the last value present. */
  lemma {:induction false} OpenAILastValues(objects: seq<Fields>, n: nat)
    requires n <= |objects|
    ensures var a := SeenAll(false, objects, n);
            && a.outputTokens == Last(objects, n, COMPLETION)
            && a.cacheRead == Last(objects, n, CACHED)
            && a.reasoningTokens == Last(objects, n, REASONING)
            && a.totalTokens == Last(objects, n, TOTAL)
            && a.cacheWrite == None
  {
    if n > 0 {
      OpenAILastValues(objects, n - 1);
    }
  }

  /** OpenAI: the total input and the uncached input always come from one object, the last
      that had an input count. */
  lemma {:induction false} OpenAIExactly(objects: seq<Fields>, n: nat)
    requires n <= |objects|
    ensures var a, o := SeenAll(false, objects, n), LastWith(objects, n, INPUT);
            if o.None? then a.totalInput == None && a.inputUncached == None
            else a.totalInput == INPUT(o.value) && a.inputUncached == UncachedIn(o.value)
  {
    if n > 0 {
      OpenAIExactly(objects, n - 1);
    }
  }

  /** The state and the raw record are the last object's alone: a complete usage falls back
      to partial when a later object lacks a count that the record already holds. */
  lemma StateIsLastObjects(anthropic: bool, objects: seq<Fields>, n: nat)
    requires n <= |objects|
    ensures var a := SeenAll(anthropic, objects, n);
            if n == 0 then a.state == Unavailable && a.raw == None
            else
              var u := objects[n - 1];
              && a.raw == Some(u)
              && a.state == if anthropic then StateOf(UNCACHED(u).Some?, OUTPUT(u).Some?)
                            else StateOf(INPUT(u).Some?, COMPLETION(u).Some?)
  {
  }

  lemma CompleteFallsBack()
    ensures var whole: Fields := map["input_tokens" := Num(7), "output_tokens" := Num(3)];
            var rest: Fields := map["output_tokens" := Num(5)];
            var a := SeenAll(true, [whole, rest], 2);
            && SeenAll(true, [whole, rest], 1).state == Complete
            && a.state == Partial && a.inputUncached == Some(7) && a.outputTokens == Some(5)
  {
    var whole: Fields := map["input_tokens" := Num(7), "output_tokens" := Num(3)];
    var rest: Fields := map["output_tokens" := Num(5)];
    assert SeenAll(true, [whole, rest], 1) == SeenAnthropic(NO_USAGE, whole);
  }

  // ---------- One report, field by field ----------

  /** An Anthropic report is read by its field names. */
  lemma AnthropicReport(input: int, read: int, written: int, output: int)
    ensures var u: Fields := map["input_tokens" := Num(input), "cache_read_input_tokens" := Num(read),
                                 "cache_creation_input_tokens" := Num(written), "output_tokens" := Num(output)];
            SeenAll(true, [u], 1)
            == Usage(Some(Wrap(Wrap(input + read) + written)), Some(input), Some(read), Some(written), Some(output),
                     None, None, Some(u), Complete)
  {
    var u: Fields := map["input_tokens" := Num(input), "cache_read_input_tokens" := Num(read),
                         "cache_creation_input_tokens" := Num(written), "output_tokens" := Num(output)];
    assert SeenAll(true, [u], 1) == SeenAnthropic(NO_USAGE, u);
  }

  /** An OpenAI report of a chat completion is read by its field names. */
  lemma ChatReport(input: int, cached: int, output: int, reasoning: int, total: int)
    requires 0 <= cached <= input <= MAX_INT64
    ensures var u: Fields := map["prompt_tokens" := Num(input), "completion_tokens" := Num(output),
                                 "total_tokens" := Num(total),
                                 "prompt_tokens_details" := Object(map["cached_tokens" := Num(cached)]),
                                 "completion_tokens_details" := Object(map["reasoning_tokens" := Num(reasoning)])];
            SeenAll(false, [u], 1)
            == Usage(Some(input), Some(input - cached), Some(cached), None, Some(output), Some(reasoning),
                     Some(total), Some(u), Complete)
  {
    var u: Fields := map["prompt_tokens" := Num(input), "completion_tokens" := Num(output),
                         "total_tokens" := Num(total),
                         "prompt_tokens_details" := Object(map["cached_tokens" := Num(cached)]),
                         "completion_tokens_details" := Object(map["reasoning_tokens" := Num(reasoning)])];
    assert SeenAll(false, [u], 1) == SeenOpenAI(NO_USAGE, u);
  }

  /** So is one of a response, whose fields have other names. */
  lemma ResponseReport(input: int, cached: int, output: int)
    requires 0 <= cached <= input <= MAX_INT64
    ensures var u: Fields := map["input_tokens" := Num(input), "output_tokens" := Num(output),
                                 "input_tokens_details" := Object(map["cached_tokens" := Num(cached)])];
            SeenAll(false, [u], 1)
            == Usage(Some(input), Some(input - cached), Some(cached), None, Some(output), None, None, Some(u), Complete)
  {
    var u: Fields := map["input_tokens" := Num(input), "output_tokens" := Num(output),
                         "input_tokens_details" := Object(map["cached_tokens" := Num(cached)])];
    assert SeenAll(false, [u], 1) == SeenOpenAI(NO_USAGE, u);
  }

  /** Where both names are there, the first name of a count is read, and the last of the two
      detail objects. */
  lemma NamesInOrder(a: int, b: int)
    ensures INPUT(map["prompt_tokens" := Num(a), "input_tokens" := Num(b)]) == Some(a)
    ensures COMPLETION(map["completion_tokens" := Num(a), "output_tokens" := Num(b)]) == Some(a)
    ensures CACHED(map["prompt_tokens_details" := Object(map["cached_tokens" := Num(a)]),
                       "input_tokens_details" := Object(map["cached_tokens" := Num(b)])]) == Some(b)
  {
  }

  /** An event's own usage is read before that of the message in it. */
  lemma EventReports(u: Fields, v: Fields)
    ensures ObjectsOf(Some(Object(map["usage" := Object(u), "message" := Object(map["usage" := Object(v)])]))) == [u, v]
    ensures ObjectsOf(Some(Object(map["message" := Object(map["usage" := Object(v)])]))) == [v]
    ensures ObjectsOf(Some(Object(map["usage" := Object(u)]))) == [u]
  {
  }

  // ---------- Without overflow ----------

  const MAX_INT64: int := 0x7FFF_FFFF_FFFF_FFFF

  predicate Within(v: Option<int>, low: int, high: int) { v.Some? ==> low <= v.value <= high }

  predicate AllWithin(objects: seq<Fields>, reader: Reader, high: int) {
    forall i :: 0 <= i < |objects| ==> Within(reader(objects[i]), 0, high)
  }

  lemma {:induction false} LastWithin(objects: seq<Fields>, n: nat, reader: Reader, high: int)
    requires n <= |objects| && AllWithin(objects, reader, high)
    ensures Within(Last(objects, n, reader), 0, high)
  {
    if n > 0 {
      LastWithin(objects, n - 1, reader, high);
    }
  }

  /** Adding in two wrapping steps gives the sum exactly when the sum is a 64-bit integer. */
  lemma SumWraps(x: int, y: int, z: int)
    ensures Wrap(Wrap(x + y) + z) == x + y + z <==> -MAX_INT64 - 1 <= x + y + z <= MAX_INT64
  {
    var j := Turns(x + y);
    var k := Turns(Wrap(x + y) + z);
    assert Wrap(Wrap(x + y) + z) == x + y + z - (j + k) * 0x1_0000_0000_0000_0000;
  }

  lemma Turns(x: int) returns (k: int)
    ensures Wrap(x) == x - k * 0x1_0000_0000_0000_0000
  {
    k := (x + 0x8000_0000_0000_0000) / 0x1_0000_0000_0000_0000;
  }

  function PartSum(a: Usage): int {
    Amount(a.inputUncached) + Amount(a.cacheRead) + Amount(a.cacheWrite)
  }

  /** The total is the sum of the parts exactly when that sum is a 64-bit integer. */
  lemma AnthropicTotalExactly(objects: seq<Fields>, n: nat)
    requires n <= |objects|
    ensures var a := SeenAll(true, objects, n);
            a.totalInput.Some? ==>
              (a.totalInput.value == PartSum(a) <==> -MAX_INT64 - 1 <= PartSum(a) <= MAX_INT64)
  {
    AnthropicExactly(objects, n);
    var a := SeenAll(true, objects, n);
    SumWraps(Amount(a.inputUncached), Amount(a.cacheRead), Amount(a.cacheWrite));
  }

  /** Counts of at most a third of the largest 64-bit integer never overflow the total. */
  lemma AnthropicTotalExact(objects: seq<Fields>, n: nat)
    requires n <= |objects|
    requires AllWithin(objects, UNCACHED, MAX_INT64 / 3)
    requires AllWithin(objects, READ, MAX_INT64 / 3) && AllWithin(objects, WRITTEN, MAX_INT64 / 3)
    ensures var a := SeenAll(true, objects, n);
            a.totalInput.Some? ==>
              a.totalInput.value == PartSum(a)
  {
    AnthropicExactly(objects, n);
    AnthropicTotalExactly(objects, n);
    LastWithin(objects, n, UNCACHED, MAX_INT64 / 3);
    LastWithin(objects, n, READ, MAX_INT64 / 3);
    LastWithin(objects, n, WRITTEN, MAX_INT64 / 3);
  }

  /** Past that, the total can come out negative. */
  lemma AnthropicTotalCanWrap()
    ensures var u: Fields := map["input_tokens" := Num(MAX_INT64), "cache_read_input_tokens" := Num(1)];
            SeenAll(true, [u], 1).totalInput == Some(-MAX_INT64 - 1)
  {
    var u: Fields := map["input_tokens" := Num(MAX_INT64), "cache_read_input_tokens" := Num(1)];
    assert SeenAll(true, [u], 1) == SeenAnthropic(NO_USAGE, u);
  }

  /** Counts that are not negative never overflow the subtraction: the uncached input is
      what the cached part leaves of the input, or nothing when it claims more. */
  lemma OpenAIUncachedExact(objects: seq<Fields>, n: nat)
    requires n <= |objects|
    requires AllWithin(objects, INPUT, MAX_INT64) && AllWithin(objects, CACHED, MAX_INT64)
    ensures var a, o := SeenAll(false, objects, n), LastWith(objects, n, INPUT);
            && (a.inputUncached.Some? <==> o.Some?) && (a.totalInput.Some? <==> o.Some?)
            && (o.Some? ==> a.inputUncached.value == Floor(a.totalInput.value - Amount(CACHED(o.value))))
            && (o.Some? ==> 0 <= a.inputUncached.value <= a.totalInput.value)
  {
    OpenAIExactly(objects, n);
    if LastWith(objects, n, INPUT).Some? {
      var i := LastWithIndex(objects, n, INPUT);
      assert Within(INPUT(objects[i]), 0, MAX_INT64) && Within(CACHED(objects[i]), 0, MAX_INT64);
    }
  }

  lemma {:induction false} LastWithIndex(objects: seq<Fields>, n: nat, reader: Reader) returns (i: nat)
    requires n <= |objects| && LastWith(objects, n, reader).Some?
    ensures i < n && LastWith(objects, n, reader) == Some(objects[i]) && reader(objects[i]).Some?
  {
    if reader(objects[n - 1]).Some? {
      i := n - 1;
    } else {
      i := LastWithIndex(objects, n - 1, reader);
    }
  }
}
