/** What the StatefulSet webhook promises, stated over its reference decision
    `Decide` (which `Default` is proved to compute) and over the lookup and
    growth test it is built from. */
module StsWebhookProperties {
  import opened Kube
  import opened StsWebhook

  /** An object of another kind is refused with an error and nothing is deleted. */
  lemma NotStatefulSetFails(obj: Object, parse: string -> ParseResult, respond: nat -> Option<string>)
    requires obj.OtherObject?
    ensures Decide(obj, parse, respond).outcome == Err(TypeMismatch(obj.kind))
    ensures Decide(obj, parse, respond).deletes == []
  {
  }

  /** Without the annotation the call succeeds, deletes nothing and never decodes. */
  lemma MissingAnnotationIsNoop(sts: StatefulSet, parse: string -> ParseResult, respond: nat -> Option<string>)
    requires LastAppliedKey !in sts.annotations
    ensures Decide(StatefulSetObject(sts), parse, respond) == Decision(Ok, [], [])
    ensures forall p :: Decide(StatefulSetObject(sts), p, respond) == Decide(StatefulSetObject(sts), parse, respond)
  {
  }

  /** An annotation that does not decode fails the call and deletes nothing. */
  lemma MalformedSnapshotFails(sts: StatefulSet, parse: string -> ParseResult, respond: nat -> Option<string>)
    requires LastAppliedKey in sts.annotations
    requires parse(sts.annotations[LastAppliedKey]).ParseFailed?
    ensures Decide(StatefulSetObject(sts), parse, respond) ==
            Decision(Err(MalformedSnapshot(parse(sts.annotations[LastAppliedKey]).cause)), [], [])
  {
  }

  /** Structurally equal template lists: success, no delete, whatever the client
      would answer. */
  lemma IdenticalTemplatesAreNoop(sts: StatefulSet, parse: string -> ParseResult, respond: nat -> Option<string>)
    requires LastAppliedKey in sts.annotations
    requires parse(sts.annotations[LastAppliedKey]).Parsed?
    requires parse(sts.annotations[LastAppliedKey]).sts.templates == sts.templates
    ensures Decide(StatefulSetObject(sts), parse, respond) == Decision(Ok, [], [])
  {
  }

  /** A template grows exactly when its name's first match in the last applied
      configuration carries a storage request and the current size (zero when
      missing) is strictly larger by magnitude. */
  lemma GrowsIffLarger(last: StatefulSet, t: ClaimTemplate)
    ensures Grows(last, t) <==>
            exists i :: IsFirstMatch(last.templates, t.name, i) &&
                        last.templates[i].storage.Some? &&
                        CurrentSize(t).magnitude > last.templates[i].storage.value.magnitude
  {
    LastAppliedSizeFirstMatch(last, t.name);
    if Grows(last, t) {
      var found := LastAppliedSize(last, t.name);
      var i :| IsFirstMatch(last.templates, t.name, i) && last.templates[i].storage == Some(found.0);
      assert CurrentSize(t).magnitude > last.templates[i].storage.value.magnitude;
    }
  }

  /** A template whose name is not in the last applied configuration, or whose
      first match there has no storage request, never grows. */
  lemma UnmatchedTemplateNeverDeletes(last: StatefulSet, cur: seq<ClaimTemplate>, k: nat)
    requires k < |cur|
    requires (forall i :: 0 <= i < |last.templates| ==> last.templates[i].name != cur[k].name) ||
             (exists i :: IsFirstMatch(last.templates, cur[k].name, i) && last.templates[i].storage.None?)
    ensures k !in GrowingAt(last, cur)
  {
    LastAppliedSizeFirstMatch(last, cur[k].name);
    GrowingAtMembers(last, cur);
  }

  /** Sizes of equal magnitude never cause a delete, however they are written. */
  lemma EqualMagnitudeNeverDeletes(last: StatefulSet, t: ClaimTemplate)
    requires LastAppliedSize(last, t.name).0.magnitude == CurrentSize(t).magnitude
    ensures !Grows(last, t)
  {
  }

  /** A current template without a storage request reads as size zero: it grows
      only against a found previous size below zero. */
  lemma MissingCurrentRequestReadsAsZero(last: StatefulSet, t: ClaimTemplate)
    requires t.storage.None?
    ensures Grows(last, t) <==> LastAppliedSize(last, t.name).1 && LastAppliedSize(last, t.name).0.magnitude < 0
  {
  }

  /** Every delete targets the current StatefulSet with orphan propagation, and
      each one was triggered by a distinct template, in template order, that is
      found in the last applied configuration and grew. */
  lemma DeletesOnlyForGrowth(sts: StatefulSet, parse: string -> ParseResult, respond: nat -> Option<string>)
    ensures var d := Decide(StatefulSetObject(sts), parse, respond);
            (forall c :: c in d.deletes ==> c == DeleteCall(sts, Orphan)) &&
            |d.deletes| == |d.triggers| &&
            (forall a, b :: 0 <= a < b < |d.triggers| ==> d.triggers[a] < d.triggers[b]) &&
            (d.triggers != [] ==>
               LastAppliedKey in sts.annotations &&
               parse(sts.annotations[LastAppliedKey]).Parsed? &&
               forall k :: k in d.triggers ==>
                 k < |sts.templates| && Grows(parse(sts.annotations[LastAppliedKey]).sts, sts.templates[k]))
  {
    var d := Decide(StatefulSetObject(sts), parse, respond);
    if d.triggers != [] {
      var last := parse(sts.annotations[LastAppliedKey]).sts;
      var g := GrowingAt(last, sts.templates);
      GrowingAtMembers(last, sts.templates);
      assert d == Scan(sts, last, respond);
      forall k | k in d.triggers ensures k < |sts.templates| && Grows(last, sts.templates[k]) {
        var a :| 0 <= a < |d.triggers| && d.triggers[a] == k;
        assert g[a] in g;
      }
      forall a, b | 0 <= a < b < |d.triggers| ensures d.triggers[a] < d.triggers[b] {
        assert d.triggers[a] == g[a] && d.triggers[b] == g[b];
      }
    }
  }

  /** Template names are unique within a list. */
  ghost predicate UniqueNames(ts: seq<ClaimTemplate>) {
    forall i, j :: 0 <= i < j < |ts| ==> ts[i].name != ts[j].name
  }

  /** With unique names, the fast path for identical lists is only a shortcut:
      scanning the list against itself would find no growth either. */
  lemma {:induction false} FastPathIsShortcut(last: StatefulSet, cur: seq<ClaimTemplate>)
    requires UniqueNames(cur) && last.templates == cur
    ensures GrowingAt(last, cur) == []
  {
    forall k | 0 <= k < |cur| ensures !Grows(last, cur[k]) {
      assert IsFirstMatch(last.templates, cur[k].name, k);
      LastAppliedSizeFirstMatch(last, cur[k].name);
    }
    NoGrowthNoTriggers(last, cur);
  }

  /** When no template grows, the growing list is empty. */
  lemma {:induction false} NoGrowthNoTriggers(last: StatefulSet, cur: seq<ClaimTemplate>)
    requires forall k :: 0 <= k < |cur| ==> !Grows(last, cur[k])
    ensures GrowingAt(last, cur) == []
  {
    if cur != [] {
      NoGrowthNoTriggers(last, cur[..|cur| - 1]);
    }
  }
}
