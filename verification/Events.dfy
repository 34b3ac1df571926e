/** The canonical stream events and the grammar of a settled stream. */
module Events {
  import opened Common

  datatype FinishReason = Stop | Length | ToolCalls | StopSequence | ContentFilter | Other(raw: string)

  datatype ErrorCode =
    | InvalidRequest | Auth | RateLimit | Timeout | UpstreamUnavailable | TransportTruncated
    | ProviderProtocolError | Capacity | Internal

  datatype Usage = Usage(
    input: nat, output: nat, cacheRead: nat, cacheWrite: nat,
    cacheWrite5m: nat, cacheWrite1h: nat, reasoning: nat, explicitCacheRead: nat)

  datatype StreamEvent =
    | Delta(index: nat, content: string)
    | ThinkingDelta(index: nat, blockIndex: nat, thinking: string)
    | ThinkingSignatureDelta(index: nat, blockIndex: nat, signature: string)
    | RedactedThinking(index: nat, blockIndex: nat, data: string)
    | ToolCallDelta(callIndex: nat, id: Option<string>, name: Option<string>, arguments: string,
                    callSignature: Option<string>)
    | UsageReport(usage: Usage)
    | Finish(reason: Option<FinishReason>, stopSequence: Option<string>)
    | Done
    | Error(code: ErrorCode, providerMessage: Option<string>)

  predicate IsContent(e: StreamEvent) {
    e.Delta? || e.ThinkingDelta? || e.ThinkingSignatureDelta? || e.RedactedThinking? || e.ToolCallDelta?
  }

  predicate NoError(es: seq<StreamEvent>) {
    forall i :: 0 <= i < |es| ==> !es[i].Error?
  }

  /** The event at `i` is no `Finish`, or at most one usage report and then `Done` follow it. */
  predicate SettlesAt(es: seq<StreamEvent>, i: nat)
    requires i < |es|
  {
    es[i].Finish? ==>
      || (i + 1 < |es| && es[i + 1].Done?)
      || (i + 2 < |es| && es[i + 1].UsageReport? && es[i + 2].Done?)
  }

  /** The event at `i` is no `Done`, or it closes a `Finish` at most one usage report back. */
  predicate ClosesAt(es: seq<StreamEvent>, i: nat)
    requires i < |es|
  {
    es[i].Done? ==>
      || (1 <= i && es[i - 1].Finish?)
      || (2 <= i && es[i - 1].UsageReport? && es[i - 2].Finish?)
  }

  predicate FinishesSettle(es: seq<StreamEvent>) {
    forall i :: 0 <= i < |es| ==> SettlesAt(es, i)
  }

  predicate DonesClose(es: seq<StreamEvent>) {
    forall i :: 0 <= i < |es| ==> ClosesAt(es, i)
  }

  predicate ErrorIsLast(es: seq<StreamEvent>) {
    forall i :: 0 <= i < |es| && es[i].Error? ==> i == |es| - 1
  }

  lemma FinishesSettleAppend(a: seq<StreamEvent>, b: seq<StreamEvent>)
    requires FinishesSettle(a) && FinishesSettle(b)
    ensures FinishesSettle(a + b)
  {
    forall i | 0 <= i < |a + b|
      ensures SettlesAt(a + b, i)
    {
      if i < |a| {
        assert SettlesAt(a, i);
      } else {
        assert SettlesAt(b, i - |a|);
      }
    }
  }

  lemma DonesCloseAppend(a: seq<StreamEvent>, b: seq<StreamEvent>)
    requires DonesClose(a) && DonesClose(b)
    ensures DonesClose(a + b)
  {
    forall i | 0 <= i < |a + b|
      ensures ClosesAt(a + b, i)
    {
      if i < |a| {
        assert ClosesAt(a, i);
      } else {
        assert ClosesAt(b, i - |a|);
      }
    }
  }

  /** After a stretch whose finishes have settled, no `Done` closes a finish of that stretch. */
  lemma DonesCloseAfter(a: seq<StreamEvent>, b: seq<StreamEvent>)
    requires FinishesSettle(a)
    ensures DonesClose(a + b) <==> DonesClose(a) && DonesClose(b)
  {
    var all := a + b;
    assert forall i :: 0 <= i < |a| ==> all[i] == a[i];
    forall i | 0 <= i < |a|
      ensures ClosesAt(all, i) <==> ClosesAt(a, i)
    {
    }
    if |a| >= 1 {
      assert SettlesAt(a, |a| - 1);
    }
    if |a| >= 2 {
      assert SettlesAt(a, |a| - 2);
    }
    forall i | 0 <= i < |b|
      ensures ClosesAt(all, |a| + i) <==> ClosesAt(b, i)
    {
      assert all[|a| + i] == b[i];
      assert i >= 1 ==> all[|a| + i - 1] == b[i - 1];
      assert i >= 2 ==> all[|a| + i - 2] == b[i - 2];
    }
    if DonesClose(all) {
      forall i | 0 <= i < |a|
        ensures ClosesAt(a, i)
      {
        assert ClosesAt(all, i);
      }
      forall i | 0 <= i < |b|
        ensures ClosesAt(b, i)
      {
        assert ClosesAt(all, |a| + i);
      }
    }
    if DonesClose(a) && DonesClose(b) {
      DonesCloseAppend(a, b);
    }
  }

  function CountFinish(es: seq<StreamEvent>): nat {
    if es == [] then 0 else (if es[0].Finish? then 1 else 0) + CountFinish(es[1..])
  }

  function CountDone(es: seq<StreamEvent>): nat {
    if es == [] then 0 else (if es[0].Done? then 1 else 0) + CountDone(es[1..])
  }

  lemma {:induction false} CountsAppend(a: seq<StreamEvent>, b: seq<StreamEvent>)
    ensures CountFinish(a + b) == CountFinish(a) + CountFinish(b)
    ensures CountDone(a + b) == CountDone(a) + CountDone(b)
  {
    if a == [] {
      assert a + b == b;
    } else {
      assert (a + b)[1..] == a[1..] + b;
      CountsAppend(a[1..], b);
    }
  }
}
