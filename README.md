# StatefulSet volume-resize webhook, modelled in Dafny

The repository runs a mutating admission webhook for apps/v1 StatefulSets.
On every update it reads the previously applied StatefulSet from the
`last-applied-configuration` annotation. It then compares the storage request
of each current volume claim template with the one recorded for the same
template name. When a request grew, it orphan-deletes the StatefulSet.
Kubernetes does not allow a claim template to change in place, so the next
apply recreates the StatefulSet with the new template, and its pods and claims
survive the delete.

This project models that decision engine: `statefulsetDefaulter.Default` and
its lookup helper `getLastAppliedPVCSize`.

- `kube.dfy` (module `Kube`) holds the Kubernetes values the engine reads.
  A resource quantity is an exact integer magnitude plus an opaque written
  form. The magnitude is counted in units of 1n (10^-9), the finest a parsed
  quantity keeps. `Cmp` compares magnitudes only. Structural equality also compares
  the written form.
- `sts_webhook.dfy` (module `StsWebhook`) holds the model itself:
  - `LastAppliedSize` is the first-match lookup, written as a recursive function.
  - `Grows` and `GrowingAt` say which templates grew.
  - `Decide` is the reference decision for one admission call.
  - `Default` and its loop `ScanTemplates` are methods, proved to compute `Decide`.
- `sts_webhook_properties.dfy` states the behaviour the code promises, as lemmas
  over `Decide` and the lookup.
- `sts_webhook_scenarios.dfy` works through concrete admissions: growth,
  same size, another unit suffix, shrink, a new template, two growing
  templates, and a failed delete.

Two collaborators are passed in as parameters:

- Decoding the annotation is `parse: string -> ParseResult`. It yields a
  StatefulSet or a failure.
- The client's `Delete` is `respond: nat -> Option<string>`. `respond(k)` is
  the answer to the k-th delete issued during the call: `None` means success,
  `Some(cause)` means an error.

Each call produces a `Decision`: the value `Default` returns, the deletes it
issued in order, and the index of the template that triggered each delete. The
StatefulSet is a value, so the model cannot change it. The source does not
change it either.

One delete per admission call would be enough, since the delete removes the
whole StatefulSet, but the loop at api/v1/sts_webhook.go:82-114 has no `break`
after a successful delete. The model follows the code: every growing template
issues its own delete, and the scan stops only at a failed delete.
`StsWebhookScenarios.TwoGrowingTemplatesDeleteTwice` shows two deletes for two
growing templates.

## Model

| member | source | states |
|---|---|---|
| `Kube.Cmp` | api/v1/sts_webhook.go:98 | -1, 0 or 1 exactly as the first magnitude is below, equal to or above the second; the written forms play no part |
| `StsWebhook.LastAppliedSize` | api/v1/sts_webhook.go:119-137 | whenever the lookup reports "not found", the quantity it returns is the zero quantity |
| `StsWebhook.LastAppliedSizeFirstMatch` | api/v1/sts_webhook.go:119-137 | no template with the name gives not-found; otherwise the result is decided by the first template with that name alone: found, with its storage request, exactly when that template has one; a found result always comes from that first match |
| `StsWebhook.GrowingAtMembers` | api/v1/sts_webhook.go:82-104 | the growing templates are exactly the current templates whose lookup succeeds and whose size compares strictly greater; each is listed once, in template order |
| `StsWebhook.GrowingAtStep` | api/v1/sts_webhook.go:82-104 | scanning one more template adds its index to the growing list exactly when that template grows |
| `StsWebhook.GrowingAtPrefix` | api/v1/sts_webhook.go:82-114 | the templates found growing in a prefix of the list are a prefix of those found growing in the whole list |
| `StsWebhook.FirstFailure` | api/v1/sts_webhook.go:109-112 | the position of the first delete answered with an error: every earlier delete succeeded, and if the position is inside the range, that delete failed |
| `StsWebhook.OrphanDeletes` | api/v1/sts_webhook.go:106-109 | every delete issued targets the current StatefulSet with orphan propagation |
| `StsWebhook.Scan` | api/v1/sts_webhook.go:82-116 | the delete triggers are a prefix of the growing templates, one orphan delete of the current StatefulSet each; success iff the client accepts a delete for every growing template, and then every growing template has triggered one delete; on failure the last delete issued is the first one that failed, and the error names the StatefulSet and carries the client's cause |
| `StsWebhook.ScanSucceeds` | api/v1/sts_webhook.go:82-116 | when the client accepts every delete, the call succeeds after one delete per growing template |
| `StsWebhook.ScanFails` | api/v1/sts_webhook.go:109-112 | when the k-th delete is the first to fail, the call fails after exactly k+1 deletes, the triggers being the first k+1 growing templates, so no later template is processed |
| `StsWebhook.ScanTemplates` | api/v1/sts_webhook.go:82-116 | the loop over the current templates returns, issues and records exactly what `Scan` specifies |
| `StsWebhook.Default` | api/v1/sts_webhook.go:50-117 | the returned result, the deletes issued and their triggers are exactly `Decide`: type check, missing annotation, decode failure, identical lists, then the scan |
| `StsWebhookProperties.NotStatefulSetFails` | api/v1/sts_webhook.go:52-56 | an object of another kind gives a type-mismatch error and no delete |
| `StsWebhookProperties.MissingAnnotationIsNoop` | api/v1/sts_webhook.go:59-63 | without the annotation the call succeeds with no delete, and the decoder is never consulted (any decoder gives the same decision) |
| `StsWebhookProperties.MalformedSnapshotFails` | api/v1/sts_webhook.go:66-70 | an annotation that does not decode gives a malformed-snapshot error carrying the decoder's cause, and no delete |
| `StsWebhookProperties.IdenticalTemplatesAreNoop` | api/v1/sts_webhook.go:76-79 | structurally equal template lists give success and no delete, whatever the client would answer |
| `StsWebhookProperties.GrowsIffLarger` | api/v1/sts_webhook.go:87-104 | a template counts as growing (`Grows`) iff its name's first match in the last applied configuration has a storage request and the current size (zero when missing) is strictly larger in magnitude |
| `StsWebhookProperties.UnmatchedTemplateNeverDeletes` | api/v1/sts_webhook.go:90-95 | a template whose name is absent from the last applied configuration, or whose first match has no storage request, never triggers a delete |
| `StsWebhookProperties.EqualMagnitudeNeverDeletes` | api/v1/sts_webhook.go:98-100 | equal magnitudes never trigger a delete, whatever their written forms |
| `StsWebhookProperties.MissingCurrentRequestReadsAsZero` | api/v1/sts_webhook.go:87 | a current template without a storage request grows only against a found previous size below zero |
| `StsWebhookProperties.DeletesOnlyForGrowth` | api/v1/sts_webhook.go:82-114 | every delete targets the current StatefulSet with orphan propagation; there is one trigger per delete, triggers are strictly increasing template indices, and each trigger is a template that grew against the decoded annotation |
| `StsWebhookProperties.FastPathIsShortcut` | api/v1/sts_webhook.go:76-79 | when template names are unique, scanning a list against an identical one finds no growth, so the fast path does not change the outcome |
| `StsWebhookProperties.NoGrowthNoTriggers` | api/v1/sts_webhook.go:82-114 | if no template grows, no template triggers a delete |
| `StsWebhookScenarios.GrowingAtPair` | api/v1/sts_webhook.go:82-104 | for two templates, the growing list holds index 0 and/or 1 exactly as each grows |
| `StsWebhookScenarios.GrowthDeletesOnce` | api/v1/sts_webhook.go:98-112 | "data" growing from 10Gi to 20Gi gives success after one orphan delete |
| `StsWebhookScenarios.SameSizeIsNoop` | api/v1/sts_webhook.go:76-79 | an unchanged 10Gi template gives success with no delete |
| `StsWebhookScenarios.OtherSuffixSameSizeIsNoop` | api/v1/sts_webhook.go:98-100 | 10Gi rewritten as 10240Mi skips the fast path, is compared, and deletes nothing |
| `StsWebhookScenarios.ShrinkIsNoop` | api/v1/sts_webhook.go:101-102 | shrinking from 20Gi to 10Gi gives success with no delete |
| `StsWebhookScenarios.NewTemplateIsNoop` | api/v1/sts_webhook.go:90-95 | adding a new template next to an unchanged one gives success with no delete |
| `StsWebhookScenarios.TwoGrowingTemplatesDeleteTwice` | api/v1/sts_webhook.go:82-114 | two growing templates and a client that accepts everything: two orphan deletes, triggered by templates 0 and 1, then success |
| `StsWebhookScenarios.FailedDeleteStopsScan` | api/v1/sts_webhook.go:109-112 | the same two templates with the first delete refused: one delete, a delete-failed error with the client's cause, and the second template never processed |
| `StsWebhookScenarios.DuplicateNamesFastPathSkipsGrowth` | api/v1/sts_webhook.go:76-79 | with two templates both named "data", a scan of the list against itself would find growth at index 1, yet the fast path returns success with no delete |

## Left out

- Webhook registration (`SetupStatefulSetWebhookWithManager`) and the kubebuilder marker: framework wiring and webhook configuration (including `failurePolicy=ignore`), not decision logic.
- Logging: the logrus messages, including the warning on a shrink, have no effect on results.
- Annotation decoding: YAML decoding is library code and becomes the `parse` parameter. The model does not check how the library maps the annotation's field names onto the StatefulSet schema. The annotation key is the literal `last-applied-configuration`, as the code uses it.
- Quantity parsing and suffix arithmetic: these are library code. A quantity is its exact magnitude plus an opaque written form.
- `reflect.DeepEqual` on Kubernetes structs becomes equality of the abstract templates. Unlike `DeepEqual`, it does not tell a nil list from an empty one. That difference only decides whether the fast path is taken, and the scan of an empty list issues no delete either way.
- The client's network call, its context, cancellation and timeouts: only the answer to each delete is modelled, as `respond`.
- A nil `*StatefulSet` passed as the object: the type assertion accepts it and the annotation read then panics. The framework never passes one, so the model has no such case.
- `StsWebhook.LastAppliedSize`: its own contract only says that not-found returns zero. The full first-match behaviour is stated in `LastAppliedSizeFirstMatch`, which keeps the loop proofs small.
