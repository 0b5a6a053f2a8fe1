/** The per-item map of `/api/generate-batch` (server.js lines 143-161) and
    the two `filter(...).length` counts over its results (lines 166-167).
    `Promise.all` is modelled as a sequential map: its only observable
    promises are that every item settles, results keep input order, and the
    first rejection rejects the whole. */
module Batch {
  import opened Wrappers
  import opened JsValues
  import opened EncodingOptions

  /** One entry of `results`. */
  datatype Outcome =
    | Succeeded(text: Json, itemLabel: Json, qrCode: string)  // `itemLabel` is the `label` field
    | Failed(text: Json, error: string)

  /** The TypeError that `item.text` raises when the item is `null`. */
  const NullItemError: string := "Cannot read properties of null (reading 'text')"

  /** `item.text || item`: an object's truthy `text`, otherwise the item
      itself (so a string item is encoded as it stands). */
  function EffectiveText(item: Json): (t: Json)
    ensures item.JObj? && "text" in item.props && Truthy(Some(item.props["text"])) ==> t == item.props["text"]
    ensures !(item.JObj? && "text" in item.props && Truthy(Some(item.props["text"]))) ==> t == item
  {
    Or(Member(item, "text"), item)
  }

  /** `item.label || null`: an object's truthy `label`, otherwise `null`;
      never a falsy label such as `""` or `0`. */
  function EffectiveLabel(item: Json): (l: Json)
    ensures l == JNull || Truthy(Some(l))
    ensures item.JObj? && "label" in item.props && Truthy(Some(item.props["label"])) ==> l == item.props["label"]
    ensures !(item.JObj? && "label" in item.props && Truthy(Some(item.props["label"]))) ==> l == JNull
  {
    Or(Member(item, "label"), JNull)
  }

  /** The async callback for one item. An encoder error is caught and becomes
      a failed outcome. A `null` item throws inside the `try` and again in
      the `catch`, so its callback rejects. */
  function EncodeItem(item: Json, opts: Options, toDataUrl: Encoder<string>): (r: Result<Outcome, string>)
    ensures r.Failure? <==> item == JNull
    ensures r.Failure? ==> r.error == NullItemError
    ensures r.Success? ==> r.value.text == EffectiveText(item)
    ensures r.Success? ==> (r.value.Succeeded? <==> toDataUrl(EffectiveText(item), opts).Success?)
    ensures r.Success? && r.value.Succeeded? ==>
      r.value.itemLabel == EffectiveLabel(item) && r.value.qrCode == toDataUrl(EffectiveText(item), opts).value
    ensures r.Success? && r.value.Failed? ==> r.value.error == toDataUrl(EffectiveText(item), opts).error
  {
    if item == JNull then Failure(NullItemError)
    else
      var text := EffectiveText(item);
      match toDataUrl(text, opts)
      case Success(qr) => Success(Succeeded(text, EffectiveLabel(item), qr))
      case Failure(e) => Success(Failed(text, e))
  }

  /** `await Promise.all(items.map(...))`: one outcome per item, in item
      order, unless some callback rejected. */
  function SettleAll(items: seq<Json>, opts: Options, toDataUrl: Encoder<string>): (r: Result<seq<Outcome>, string>)
    ensures r.Failure? <==> JNull in items
    ensures r.Failure? ==> r.error == NullItemError
    ensures r.Success? ==> |r.value| == |items|
    ensures r.Success? ==> forall i | 0 <= i < |items| :: EncodeItem(items[i], opts, toDataUrl) == Success(r.value[i])
  {
    if items == [] then Success([])
    else
      var head := EncodeItem(items[0], opts, toDataUrl);
      var tail := SettleAll(items[1..], opts, toDataUrl);
      if head.Failure? then Failure(head.error)
      else if tail.Failure? then tail
      else Success([head.value] + tail.value)
  }

  /** The encoder inputs the map hands over: every item but a `null` one is
      encoded, even when a `null` item rejects the batch. */
  function EncoderInputs(items: seq<Json>, opts: Options): (calls: seq<(Json, Options)>)
    ensures |calls| <= |items|
    ensures forall i | 0 <= i < |items| && items[i] != JNull :: (EffectiveText(items[i]), opts) in calls
    ensures forall c | c in calls :: c.1 == opts && exists i | 0 <= i < |items| :: items[i] != JNull && c.0 == EffectiveText(items[i])
  {
    if items == [] then []
    else (if items[0] == JNull then [] else [(EffectiveText(items[0]), opts)]) + EncoderInputs(items[1..], opts)
  }

  /** `results.filter(r => r.success)`: every successful outcome, as often
      as it occurs in `results`, and nothing else. */
  function SuccessfulOnes(results: seq<Outcome>): (s: seq<Outcome>)
    ensures |s| <= |results|
    ensures forall o :: o in s <==> o in results && o.Succeeded?
  {
    if results == [] then []
    else (if results[0].Succeeded? then [results[0]] else []) + SuccessfulOnes(results[1..])
  }

  /** `results.filter(r => !r.success)`: every failed outcome, as often as
      it occurs in `results`, and nothing else. */
  function FailedOnes(results: seq<Outcome>): (s: seq<Outcome>)
    ensures |s| <= |results|
    ensures forall o :: o in s <==> o in results && o.Failed?
  {
    if results == [] then []
    else (if results[0].Failed? then [results[0]] else []) + FailedOnes(results[1..])
  }

  /** The filter keeps each successful outcome exactly as often as it occurs
      in `results`, and no other outcome. */
  lemma {:induction false} SuccessfulMultiplicity(results: seq<Outcome>)
    ensures forall o :: multiset(SuccessfulOnes(results))[o] == (if o.Succeeded? then multiset(results)[o] else 0)
  {
    if results != [] {
      assert results == [results[0]] + results[1..];
      SuccessfulMultiplicity(results[1..]);
    }
  }

  /** The filter keeps each failed outcome exactly as often as it occurs in
      `results`, and no other outcome. */
  lemma {:induction false} FailedMultiplicity(results: seq<Outcome>)
    ensures forall o :: multiset(FailedOnes(results))[o] == (if o.Failed? then multiset(results)[o] else 0)
  {
    if results != [] {
      assert results == [results[0]] + results[1..];
      FailedMultiplicity(results[1..]);
    }
  }

  /** Every outcome is counted exactly once: the two filters split the
      results between them, so `successful + failed == total`. */
  lemma CountsPartition(results: seq<Outcome>)
    ensures multiset(SuccessfulOnes(results)) + multiset(FailedOnes(results)) == multiset(results)
    ensures |SuccessfulOnes(results)| + |FailedOnes(results)| == |results|
  {
    SuccessfulMultiplicity(results);
    FailedMultiplicity(results);
    var both := multiset(SuccessfulOnes(results)) + multiset(FailedOnes(results));
    forall o ensures both[o] == multiset(results)[o] {
    }
    assert both == multiset(results);
    assert |both| == |multiset(SuccessfulOnes(results))| + |multiset(FailedOnes(results))|;
  }

  /** The indices of the successful results. */
  ghost function SucceededIndices(results: seq<Outcome>): set<nat>
  {
    set i: nat | i < |results| && results[i].Succeeded?
  }

  /** The indices of the failed results. */
  ghost function FailedIndices(results: seq<Outcome>): set<nat>
  {
    set i: nat | i < |results| && results[i].Failed?
  }

  lemma {:induction false} SuccessfulOnesAppend(results: seq<Outcome>, o: Outcome)
    ensures SuccessfulOnes(results + [o]) == SuccessfulOnes(results) + (if o.Succeeded? then [o] else [])
  {
    if results != [] {
      var head := if results[0].Succeeded? then [results[0]] else [];
      assert (results + [o])[0] == results[0];
      assert (results + [o])[1..] == results[1..] + [o];
      assert SuccessfulOnes(results + [o]) == head + SuccessfulOnes(results[1..] + [o]);
      SuccessfulOnesAppend(results[1..], o);
      assert SuccessfulOnes(results) == head + SuccessfulOnes(results[1..]);
    }
  }

  lemma {:induction false} FailedOnesAppend(results: seq<Outcome>, o: Outcome)
    ensures FailedOnes(results + [o]) == FailedOnes(results) + (if o.Failed? then [o] else [])
  {
    if results != [] {
      var head := if results[0].Failed? then [results[0]] else [];
      assert (results + [o])[0] == results[0];
      assert (results + [o])[1..] == results[1..] + [o];
      assert FailedOnes(results + [o]) == head + FailedOnes(results[1..] + [o]);
      FailedOnesAppend(results[1..], o);
      assert FailedOnes(results) == head + FailedOnes(results[1..]);
    }
  }

  /** `successful` is the number of results with `success: true`. */
  lemma {:induction false} SuccessfulCount(results: seq<Outcome>)
    ensures |SuccessfulOnes(results)| == |SucceededIndices(results)|
  {
    if results != [] {
      var init := results[..|results| - 1];
      var last := results[|results| - 1];
      assert results == init + [last];
      SuccessfulOnesAppend(init, last);
      SuccessfulCount(init);
      SucceededIndicesAppend(init, last);
    }
  }

  lemma SucceededIndicesAppend(init: seq<Outcome>, last: Outcome)
    ensures |SucceededIndices(init + [last])| == |SucceededIndices(init)| + (if last.Succeeded? then 1 else 0)
  {
    var results := init + [last];
    var k: nat := |init|;
    var before := SucceededIndices(init);
    assert k !in before;
    var extra := if last.Succeeded? then {k} else {};
    forall i: nat ensures i in SucceededIndices(results) <==> i in before + extra {
      if i < k {
        assert results[i] == init[i];
      }
    }
    assert SucceededIndices(results) == before + extra;
  }

  /** `failed` is the number of results with `success: false`. */
  lemma {:induction false} FailedCount(results: seq<Outcome>)
    ensures |FailedOnes(results)| == |FailedIndices(results)|
  {
    if results != [] {
      var init := results[..|results| - 1];
      var last := results[|results| - 1];
      assert results == init + [last];
      FailedOnesAppend(init, last);
      FailedCount(init);
      FailedIndicesAppend(init, last);
    }
  }

  lemma FailedIndicesAppend(init: seq<Outcome>, last: Outcome)
    ensures |FailedIndices(init + [last])| == |FailedIndices(init)| + (if last.Failed? then 1 else 0)
  {
    var results := init + [last];
    var k: nat := |init|;
    var before := FailedIndices(init);
    assert k !in before;
    var extra := if last.Failed? then {k} else {};
    forall i: nat ensures i in FailedIndices(results) <==> i in before + extra {
      if i < k {
        assert results[i] == init[i];
      }
    }
    assert FailedIndices(results) == before + extra;
  }

  /** The settled batch depends on the encoder only at the inputs it is
      handed: two encoders that agree there give the same result. */
  lemma {:induction false} SettleAllDependsOnInputs(items: seq<Json>, opts: Options, e1: Encoder<string>, e2: Encoder<string>)
    requires forall c | c in EncoderInputs(items, opts) :: e1(c.0, c.1) == e2(c.0, c.1)
    ensures SettleAll(items, opts, e1) == SettleAll(items, opts, e2)
  {
    if items != [] {
      var calls := EncoderInputs(items, opts);
      assert calls == (if items[0] == JNull then [] else [(EffectiveText(items[0]), opts)]) + EncoderInputs(items[1..], opts);
      forall c | c in EncoderInputs(items[1..], opts) ensures e1(c.0, c.1) == e2(c.0, c.1) {
        assert c in calls;
      }
      SettleAllDependsOnInputs(items[1..], opts, e1, e2);
      if items[0] != JNull {
        assert (EffectiveText(items[0]), opts) in calls;
      }
    }
  }

  /** Outcome `j` depends only on what the encoder says about item `j`'s
      own text: it is the same under any two encoders that agree there. */
  lemma OutcomeIsLocal(items: seq<Json>, opts: Options, e1: Encoder<string>, e2: Encoder<string>, j: nat)
    requires JNull !in items && j < |items|
    requires e1(EffectiveText(items[j]), opts) == e2(EffectiveText(items[j]), opts)
    ensures SettleAll(items, opts, e1).Success? && SettleAll(items, opts, e2).Success?
    ensures SettleAll(items, opts, e1).value[j] == SettleAll(items, opts, e2).value[j]
  {
    assert EncodeItem(items[j], opts, e1) == EncodeItem(items[j], opts, e2);
  }

  /** Three outcomes, the middle one failed: two successes, one failure. */
  lemma CountsOfThree(results: seq<Outcome>)
    requires |results| == 3
    requires results[0].Succeeded? && results[1].Failed? && results[2].Succeeded?
    ensures |SuccessfulOnes(results)| == 2 && |FailedOnes(results)| == 1
  {
    var tail := results[1..];
    var last := tail[1..];
    assert last[1..] == [];
    assert |SuccessfulOnes(last)| == 1 && |FailedOnes(last)| == 0;
    assert |SuccessfulOnes(tail)| == 1 && |FailedOnes(tail)| == 1;
  }

  /** Result `i` of a settled batch holds item `i`'s effective text; it
      succeeds exactly when the encoder does on that text, and then carries
      the item's effective label and the image, otherwise the encoder's
      message. */
  lemma ResultsFollowItems(items: seq<Json>, opts: Options, toDataUrl: Encoder<string>, i: nat)
    requires JNull !in items && i < |items|
    ensures SettleAll(items, opts, toDataUrl).Success?
    ensures var r := SettleAll(items, opts, toDataUrl).value[i];
      var e := toDataUrl(EffectiveText(items[i]), opts);
      && r.text == EffectiveText(items[i])
      && (r.Succeeded? <==> e.Success?)
      && (r.Succeeded? ==> r.itemLabel == EffectiveLabel(items[i]) && r.qrCode == e.value)
      && (r.Failed? ==> r.error == e.error)
  {
    assert EncodeItem(items[i], opts, toDataUrl) == Success(SettleAll(items, opts, toDataUrl).value[i]);
  }

  /** Failure isolation: take an encoder `e1` and any `e2` that agrees with
      it on every text but item `i`'s. If `e1` fails on item `i`, result `i`
      is `{success: false, text, error}` with its message, and every result
      whose text differs from item `i`'s is the same under both encoders. */
  lemma FailureIsolation(items: seq<Json>, opts: Options, e1: Encoder<string>, e2: Encoder<string>, i: nat)
    requires JNull !in items && i < |items|
    requires forall j | 0 <= j < |items| && EffectiveText(items[j]) != EffectiveText(items[i]) ::
      e1(EffectiveText(items[j]), opts) == e2(EffectiveText(items[j]), opts)
    ensures SettleAll(items, opts, e1).Success? && SettleAll(items, opts, e2).Success?
    ensures e1(EffectiveText(items[i]), opts).Failure? ==>
      SettleAll(items, opts, e1).value[i] == Failed(EffectiveText(items[i]), e1(EffectiveText(items[i]), opts).error)
    ensures forall j | 0 <= j < |items| && EffectiveText(items[j]) != EffectiveText(items[i]) ::
      SettleAll(items, opts, e1).value[j] == SettleAll(items, opts, e2).value[j]
  {
    ResultsFollowItems(items, opts, e1, i);
    forall j | 0 <= j < |items| && EffectiveText(items[j]) != EffectiveText(items[i])
      ensures SettleAll(items, opts, e1).value[j] == SettleAll(items, opts, e2).value[j]
    {
      OutcomeIsLocal(items, opts, e1, e2, j);
    }
  }
}
