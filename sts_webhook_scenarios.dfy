/** Concrete admissions of one StatefulSet "web" whose annotation holds the text
    "prev", decoded to a chosen last applied configuration. */
module StsWebhookScenarios {
  import opened Kube
  import opened StsWebhook

  /** One gibibyte (Gi, 2^30 bytes) in units of 1n. */
  const GiB: int := 1073741824 * 1000000000
  /** One mebibyte (Mi, 2^20 bytes) in units of 1n. */
  const MiB: int := 1048576 * 1000000000

  function Template(name: string, size: Quantity): ClaimTemplate {
    ClaimTemplate(name, Some(size), "")
  }

  function Web(templates: seq<ClaimTemplate>): StatefulSet {
    StatefulSet("web", "default", map[LastAppliedKey := "prev"], templates)
  }

  /** A decoder that turns "prev" into a StatefulSet with `templates`. */
  function DecodesTo(templates: seq<ClaimTemplate>): string -> ParseResult {
    s => if s == "prev" then Parsed(StatefulSet("web", "default", map[], templates)) else ParseFailed("invalid")
  }

  /** The growing list of a two-template list, case by case. */
  lemma GrowingAtPair(last: StatefulSet, a: ClaimTemplate, b: ClaimTemplate)
    ensures GrowingAt(last, [a, b]) == (if Grows(last, a) then [0] else []) + (if Grows(last, b) then [1] else [])
  {
    var cur := [a, b];
    assert cur[..1][..0] == [] && cur[..1] == [a] && cur[..2] == cur;
    GrowingAtStep(last, cur, 0);
    GrowingAtStep(last, cur, 1);
  }

  /** "data" grows from 10Gi to 20Gi: one orphan delete of the StatefulSet. */
  lemma GrowthDeletesOnce(respond: nat -> Option<string>)
    requires respond(0).None?
    ensures var cur := [Template("data", Quantity(20 * GiB, "20Gi"))];
            Decide(StatefulSetObject(Web(cur)), DecodesTo([Template("data", Quantity(10 * GiB, "10Gi"))]), respond)
            == Decision(Ok, [DeleteCall(Web(cur), Orphan)], [0])
  {
    var last := StatefulSet("web", "default", map[], [Template("data", Quantity(10 * GiB, "10Gi"))]);
    var cur := [Template("data", Quantity(20 * GiB, "20Gi"))];
    assert IsFirstMatch(last.templates, "data", 0);
    assert Grows(last, cur[0]);
    assert GrowingAt(last, cur) == [0] by {
      assert cur[..0] == [];
    }
  }

  /** "data" stays at 10Gi: the lists are identical, nothing is deleted. */
  lemma SameSizeIsNoop(respond: nat -> Option<string>)
    ensures var ts := [Template("data", Quantity(10 * GiB, "10Gi"))];
            Decide(StatefulSetObject(Web(ts)), DecodesTo(ts), respond) == Decision(Ok, [], [])
  {
  }

  /** 10Gi written as 10240Mi: the lists differ, so every template is compared,
      and the equal magnitudes delete nothing. */
  lemma OtherSuffixSameSizeIsNoop(respond: nat -> Option<string>)
    ensures var cur := [Template("data", Quantity(10240 * MiB, "10240Mi"))];
            Decide(StatefulSetObject(Web(cur)), DecodesTo([Template("data", Quantity(10 * GiB, "10Gi"))]), respond)
            == Decision(Ok, [], [])
  {
    var last := StatefulSet("web", "default", map[], [Template("data", Quantity(10 * GiB, "10Gi"))]);
    var cur := [Template("data", Quantity(10240 * MiB, "10240Mi"))];
    assert last.templates != cur by {
      assert last.templates[0].storage.value.form != cur[0].storage.value.form;
    }
    assert IsFirstMatch(last.templates, "data", 0);
    assert !Grows(last, cur[0]);
    assert GrowingAt(last, cur) == [] by {
      assert cur[..0] == [];
    }
  }

  /** "data" shrinks from 20Gi to 10Gi: only a warning, success, no delete. */
  lemma ShrinkIsNoop(respond: nat -> Option<string>)
    ensures var cur := [Template("data", Quantity(10 * GiB, "10Gi"))];
            Decide(StatefulSetObject(Web(cur)), DecodesTo([Template("data", Quantity(20 * GiB, "20Gi"))]), respond)
            == Decision(Ok, [], [])
  {
    var last := StatefulSet("web", "default", map[], [Template("data", Quantity(20 * GiB, "20Gi"))]);
    var cur := [Template("data", Quantity(10 * GiB, "10Gi"))];
    assert last.templates != cur by {
      assert last.templates[0].storage != cur[0].storage;
    }
    assert IsFirstMatch(last.templates, "data", 0);
    assert !Grows(last, cur[0]);
    assert GrowingAt(last, cur) == [] by {
      assert cur[..0] == [];
    }
  }

  /** A new template "cache" beside an unchanged "data": not a resize. */
  lemma NewTemplateIsNoop(respond: nat -> Option<string>)
    ensures var cur := [Template("data", Quantity(10 * GiB, "10Gi")), Template("cache", Quantity(5 * GiB, "5Gi"))];
            Decide(StatefulSetObject(Web(cur)), DecodesTo([Template("data", Quantity(10 * GiB, "10Gi"))]), respond)
            == Decision(Ok, [], [])
  {
    var last := StatefulSet("web", "default", map[], [Template("data", Quantity(10 * GiB, "10Gi"))]);
    var cur := [Template("data", Quantity(10 * GiB, "10Gi")), Template("cache", Quantity(5 * GiB, "5Gi"))];
    assert IsFirstMatch(last.templates, "data", 0);
    assert !Grows(last, cur[0]);
    LastAppliedSizeFirstMatch(last, "cache");
    assert !Grows(last, cur[1]);
    GrowingAtPair(last, cur[0], cur[1]);
  }

  /** "data" grows 10Gi to 20Gi and "logs" 5Gi to 10Gi, and the client accepts
      every delete: the loop does not stop after the first delete, so the
      StatefulSet is orphan-deleted twice, once per growing template. */
  lemma TwoGrowingTemplatesDeleteTwice(respond: nat -> Option<string>)
    requires respond(0).None? && respond(1).None?
    ensures var cur := [Template("data", Quantity(20 * GiB, "20Gi")), Template("logs", Quantity(10 * GiB, "10Gi"))];
            var prev := [Template("data", Quantity(10 * GiB, "10Gi")), Template("logs", Quantity(5 * GiB, "5Gi"))];
            Decide(StatefulSetObject(Web(cur)), DecodesTo(prev), respond)
            == Decision(Ok, [DeleteCall(Web(cur), Orphan), DeleteCall(Web(cur), Orphan)], [0, 1])
  {
    var prev := [Template("data", Quantity(10 * GiB, "10Gi")), Template("logs", Quantity(5 * GiB, "5Gi"))];
    var last := StatefulSet("web", "default", map[], prev);
    var cur := [Template("data", Quantity(20 * GiB, "20Gi")), Template("logs", Quantity(10 * GiB, "10Gi"))];
    assert IsFirstMatch(prev, "data", 0);
    assert IsFirstMatch(prev, "logs", 1);
    assert Grows(last, cur[0]) && Grows(last, cur[1]);
    GrowingAtPair(last, cur[0], cur[1]);
    var sts := Web(cur);
    assert DecodesTo(prev)(sts.annotations[LastAppliedKey]) == Parsed(last);
    assert prev != cur by {
      assert prev[0].storage != cur[0].storage;
    }
    assert Decide(StatefulSetObject(sts), DecodesTo(prev), respond) == Scan(sts, last, respond);
    ScanSucceeds(Web(cur), last, respond);
    assert OrphanDeletes(Web(cur), 2) == [DeleteCall(Web(cur), Orphan), DeleteCall(Web(cur), Orphan)] by {
      assert OrphanDeletes(Web(cur), 1) == [DeleteCall(Web(cur), Orphan)];
    }
  }

  /** The same two growing templates, but the client answers the first delete
      with an error: the call fails with that error after one delete, and
      "logs" is never looked at. */
  lemma FailedDeleteStopsScan(respond: nat -> Option<string>)
    requires respond(0) == Some("connection refused")
    ensures var cur := [Template("data", Quantity(20 * GiB, "20Gi")), Template("logs", Quantity(10 * GiB, "10Gi"))];
            var prev := [Template("data", Quantity(10 * GiB, "10Gi")), Template("logs", Quantity(5 * GiB, "5Gi"))];
            Decide(StatefulSetObject(Web(cur)), DecodesTo(prev), respond)
            == Decision(Err(DeleteFailed("web", "default", "connection refused")), [DeleteCall(Web(cur), Orphan)], [0])
  {
    var prev := [Template("data", Quantity(10 * GiB, "10Gi")), Template("logs", Quantity(5 * GiB, "5Gi"))];
    var last := StatefulSet("web", "default", map[], prev);
    var cur := [Template("data", Quantity(20 * GiB, "20Gi")), Template("logs", Quantity(10 * GiB, "10Gi"))];
    assert IsFirstMatch(prev, "data", 0);
    assert IsFirstMatch(prev, "logs", 1);
    assert Grows(last, cur[0]) && Grows(last, cur[1]);
    GrowingAtPair(last, cur[0], cur[1]);
  }

  /** Two templates both named "data", 10Gi then 20Gi, and the same list in the
      annotation: the second one's lookup finds the first (10Gi), so a scan would
      delete, but the identical-lists fast path returns before any scan. */
  lemma DuplicateNamesFastPathSkipsGrowth(respond: nat -> Option<string>)
    ensures var ts := [Template("data", Quantity(10 * GiB, "10Gi")), Template("data", Quantity(20 * GiB, "20Gi"))];
            GrowingAt(StatefulSet("web", "default", map[], ts), ts) == [1] &&
            Decide(StatefulSetObject(Web(ts)), DecodesTo(ts), respond) == Decision(Ok, [], [])
  {
    var ts := [Template("data", Quantity(10 * GiB, "10Gi")), Template("data", Quantity(20 * GiB, "20Gi"))];
    var last := StatefulSet("web", "default", map[], ts);
    assert IsFirstMatch(ts, "data", 0);
    assert !Grows(last, ts[0]) && Grows(last, ts[1]);
    GrowingAtPair(last, ts[0], ts[1]);
  }
}
