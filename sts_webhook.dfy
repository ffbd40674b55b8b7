/** The StatefulSet defaulting webhook: decides, from the last applied
    configuration recorded on a StatefulSet, whether one of its volume claim
    templates asks for more storage than before, and if so orphan-deletes the
    StatefulSet so that the next apply recreates it. */
module StsWebhook {
  import opened Kube

  /** The annotation that holds the previously applied StatefulSet. */
  const LastAppliedKey: string := "last-applied-configuration"

  /** What decoding the annotation's text yields: a StatefulSet or a failure. */
  datatype ParseResult = Parsed(sts: StatefulSet) | ParseFailed(cause: string)

  datatype WebhookError =
    | TypeMismatch(kind: string)
    | MalformedSnapshot(cause: string)
    | DeleteFailed(name: string, namespace: string, cause: string)

  datatype Outcome = Ok | Err(error: WebhookError)

  /** The result of one admission call: what `Default` returns, the deletes it
      issued in order, and for each delete the index of the current template
      that triggered it. */
  datatype Decision = Decision(outcome: Outcome, deletes: seq<DeleteCall>, triggers: seq<nat>)

  /** `i` is the first position in `templates` whose name is `name`. */
  ghost predicate IsFirstMatch(templates: seq<ClaimTemplate>, name: string, i: int) {
    0 <= i < |templates| && templates[i].name == name &&
    forall j :: 0 <= j < i ==> templates[j].name != name
  }

  /** `getLastAppliedPVCSize`: the storage request of the first template of `last`
      named `name`, with true; (zero, false) when no template has that name or
      when the first one that has it carries no storage request (the scan does
      not go on to later templates of the same name). */
  function LastAppliedSize(last: StatefulSet, name: string): (r: (Quantity, bool))
    decreases |last.templates|
    ensures !r.1 ==> r.0 == ZeroQuantity
  {
    var ts := last.templates;
    if ts == [] then (ZeroQuantity, false)
    else if ts[0].name == name then
      if ts[0].storage.Some? then (ts[0].storage.value, true) else (ZeroQuantity, false)
    else LastAppliedSize(last.(templates := ts[1..]), name)
  }

  /** What `LastAppliedSize` finds: nothing when no template has the name, and
      otherwise exactly the storage request of the first template that has it. */
  lemma {:induction false} LastAppliedSizeFirstMatch(last: StatefulSet, name: string)
    ensures (forall i :: 0 <= i < |last.templates| ==> last.templates[i].name != name) ==>
              !LastAppliedSize(last, name).1
    ensures forall i :: IsFirstMatch(last.templates, name, i) ==>
              (LastAppliedSize(last, name).1 <==> last.templates[i].storage.Some?) &&
              (LastAppliedSize(last, name).1 ==> LastAppliedSize(last, name).0 == last.templates[i].storage.value)
    ensures LastAppliedSize(last, name).1 ==>
              exists i :: IsFirstMatch(last.templates, name, i) &&
                          last.templates[i].storage == Some(LastAppliedSize(last, name).0)
    decreases |last.templates|
  {
    var ts := last.templates;
    if ts == [] {
    } else if ts[0].name == name {
      assert IsFirstMatch(ts, name, 0);
    } else {
      var rest := last.(templates := ts[1..]);
      LastAppliedSizeFirstMatch(rest, name);
      assert forall i :: IsFirstMatch(ts, name, i) ==> IsFirstMatch(ts[1..], name, i - 1);
      assert forall i :: IsFirstMatch(ts[1..], name, i) ==> IsFirstMatch(ts, name, i + 1);
    }
  }

  /** The storage a current template requests; a missing request reads as zero. */
  function CurrentSize(t: ClaimTemplate): Quantity {
    if t.storage.Some? then t.storage.value else ZeroQuantity
  }

  /** Template `t` is found in `last` and its current size is strictly greater. */
  predicate Grows(last: StatefulSet, t: ClaimTemplate) {
    var found := LastAppliedSize(last, t.name);
    found.1 && Cmp(CurrentSize(t), found.0) == 1
  }

  /** The indices of the templates of `cur` that grew, in template order. */
  function GrowingAt(last: StatefulSet, cur: seq<ClaimTemplate>): seq<nat> {
    if cur == [] then []
    else
      var n := |cur| - 1;
      GrowingAt(last, cur[..n]) + (if Grows(last, cur[n]) then [n] else [])
  }

  /** `GrowingAt` lists exactly the growing templates, each once, in increasing order. */
  lemma {:induction false} GrowingAtMembers(last: StatefulSet, cur: seq<ClaimTemplate>)
    ensures forall k: int :: k in GrowingAt(last, cur) <==> 0 <= k < |cur| && Grows(last, cur[k])
    ensures forall a, b :: 0 <= a < b < |GrowingAt(last, cur)| ==> GrowingAt(last, cur)[a] < GrowingAt(last, cur)[b]
  {
    if cur != [] {
      var n := |cur| - 1;
      GrowingAtMembers(last, cur[..n]);
      var g0 := GrowingAt(last, cur[..n]);
      assert forall a :: 0 <= a < |g0| ==> g0[a] in g0;
    }
  }

  /** The first of the delete answers 0 .. n-1 that is an error, or n if none is. */
  function FirstFailure(respond: nat -> Option<string>, n: nat): (f: nat)
    ensures f <= n
    ensures forall j :: 0 <= j < f ==> respond(j).None?
    ensures f < n ==> respond(f).Some?
  {
    if n == 0 then 0
    else
      var f := FirstFailure(respond, n - 1);
      if f < n - 1 then f else if respond(n - 1).Some? then n - 1 else n
  }

  /** `k` orphan deletes of `sts`. */
  function OrphanDeletes(sts: StatefulSet, k: nat): (ds: seq<DeleteCall>)
    ensures |ds| == k
    ensures forall c :: c in ds ==> c == DeleteCall(sts, Orphan)
  {
    if k == 0 then [] else OrphanDeletes(sts, k - 1) + [DeleteCall(sts, Orphan)]
  }

  /** The scan over the current templates once the fast path did not apply: one
      orphan delete per growing template, in template order, stopping at the
      first delete the client answers with an error. */
  function Scan(sts: StatefulSet, last: StatefulSet, respond: nat -> Option<string>): (d: Decision)
    ensures d.deletes == OrphanDeletes(sts, |d.triggers|)
    ensures d.triggers <= GrowingAt(last, sts.templates)
    ensures forall j :: 0 <= j < |d.deletes| - 1 ==> respond(j).None?
    ensures d.outcome.Ok? <==> forall j :: 0 <= j < |GrowingAt(last, sts.templates)| ==> respond(j).None?
    ensures d.outcome.Ok? ==> d.triggers == GrowingAt(last, sts.templates)
    ensures d.outcome.Err? ==>
              |d.deletes| > 0 && respond(|d.deletes| - 1).Some? &&
              d.outcome.error == DeleteFailed(sts.name, sts.namespace, respond(|d.deletes| - 1).value)
  {
    var g := GrowingAt(last, sts.templates);
    var f := FirstFailure(respond, |g|);
    if f < |g| then
      Decision(Err(DeleteFailed(sts.name, sts.namespace, respond(f).value)), OrphanDeletes(sts, f + 1), g[..f + 1])
    else
      Decision(Ok, OrphanDeletes(sts, |g|), g)
  }

  /** The whole decision of one call of `Default`, as a reference for the method. */
  function Decide(obj: Object, parse: string -> ParseResult, respond: nat -> Option<string>): Decision {
    match obj
    case OtherObject(kind) => Decision(Err(TypeMismatch(kind)), [], [])
    case StatefulSetObject(sts) =>
      if LastAppliedKey !in sts.annotations then Decision(Ok, [], [])
      else
        match parse(sts.annotations[LastAppliedKey])
        case ParseFailed(cause) => Decision(Err(MalformedSnapshot(cause)), [], [])
        case Parsed(last) =>
          if last.templates == sts.templates then Decision(Ok, [], [])
          else Scan(sts, last, respond)
  }

  /** When the client accepts every delete, the scan succeeds with one delete per growing template. */
  lemma ScanSucceeds(sts: StatefulSet, last: StatefulSet, respond: nat -> Option<string>)
    requires forall j :: 0 <= j < |GrowingAt(last, sts.templates)| ==> respond(j).None?
    ensures Scan(sts, last, respond) ==
            Decision(Ok, OrphanDeletes(sts, |GrowingAt(last, sts.templates)|), GrowingAt(last, sts.templates))
  {
  }

  /** When the k-th delete is the first refused, the scan fails after k+1 deletes. */
  lemma ScanFails(sts: StatefulSet, last: StatefulSet, respond: nat -> Option<string>, k: nat)
    requires k < |GrowingAt(last, sts.templates)| && respond(k).Some?
    requires forall j :: 0 <= j < k ==> respond(j).None?
    ensures Scan(sts, last, respond) ==
            Decision(Err(DeleteFailed(sts.name, sts.namespace, respond(k).value)),
                     OrphanDeletes(sts, k + 1), GrowingAt(last, sts.templates)[..k + 1])
  {
  }

  /** Scanning one more template appends its index exactly when it grows. */
  lemma GrowingAtStep(last: StatefulSet, cur: seq<ClaimTemplate>, i: nat)
    requires i < |cur|
    ensures GrowingAt(last, cur[..i + 1]) == GrowingAt(last, cur[..i]) + (if Grows(last, cur[i]) then [i] else [])
  {
    assert cur[..i + 1][..i] == cur[..i];
  }

  /** Growth found in a prefix of the list is a prefix of the growth in the whole list. */
  lemma {:induction false} GrowingAtPrefix(last: StatefulSet, cur: seq<ClaimTemplate>, i: nat)
    requires i <= |cur|
    ensures GrowingAt(last, cur[..i]) <= GrowingAt(last, cur)
    decreases |cur| - i
  {
    if i < |cur| {
      var n := |cur| - 1;
      GrowingAtPrefix(last, cur[..n], i);
      assert cur[..n][..i] == cur[..i];
    } else {
      assert cur[..i] == cur;
    }
  }

  /** The loop of `Default` over the current templates (lines 82-116): for each
      template found in the last applied configuration whose size strictly grew,
      issue an orphan delete of `sts`; the first delete answered with an error
      ends the call with that error. */
  method ScanTemplates(sts: StatefulSet, last: StatefulSet, respond: nat -> Option<string>)
    returns (res: Outcome, issued: seq<DeleteCall>, ghost triggers: seq<nat>)
    ensures res == Scan(sts, last, respond).outcome && issued == Scan(sts, last, respond).deletes
    ensures triggers == Scan(sts, last, respond).triggers
  {
    var cur := sts.templates;
    issued, triggers := [], [];
    for i := 0 to |cur|
      invariant triggers == GrowingAt(last, cur[..i])
      invariant issued == OrphanDeletes(sts, |triggers|)
      invariant forall j :: 0 <= j < |issued| ==> respond(j).None?
    {
      GrowingAtStep(last, cur, i);
      var t := cur[i];
      var current := CurrentSize(t);
      var found := LastAppliedSize(last, t.name);
      if found.1 && Cmp(current, found.0) == 1 {
        assert Grows(last, t);
        var answer := respond(|issued|);
        issued := issued + [DeleteCall(sts, Orphan)];
        triggers := triggers + [i];
        if answer.Some? {
          GrowingAtPrefix(last, cur, i + 1);
          ScanFails(sts, last, respond, |issued| - 1);
          return Err(DeleteFailed(sts.name, sts.namespace, answer.value)), issued, triggers;
        }
      }
    }
    assert cur[..|cur|] == cur;
    ScanSucceeds(sts, last, respond);
    res := Ok;
  }

  /** `statefulsetDefaulter.Default`. `parse` stands for decoding the annotation's
      text; `respond(k)` is the client's answer to the k-th delete issued in this
      call (None for success, Some(cause) for an error). The object itself is a
      value and is never changed. */
  method Default(obj: Object, parse: string -> ParseResult, respond: nat -> Option<string>)
    returns (res: Outcome, issued: seq<DeleteCall>, ghost triggers: seq<nat>)
    ensures res == Decide(obj, parse, respond).outcome && issued == Decide(obj, parse, respond).deletes
    ensures triggers == Decide(obj, parse, respond).triggers
  {
    if !obj.StatefulSetObject? {
      return Err(TypeMismatch(obj.kind)), [], [];
    }
    var sts := obj.sts;
    if LastAppliedKey !in sts.annotations {
      return Ok, [], [];
    }
    var parsed := parse(sts.annotations[LastAppliedKey]);
    if parsed.ParseFailed? {
      return Err(MalformedSnapshot(parsed.cause)), [], [];
    }
    var last := parsed.sts;
    if last.templates == sts.templates {
      return Ok, [], [];
    }
    res, issued, triggers := ScanTemplates(sts, last, respond);
  }
}
