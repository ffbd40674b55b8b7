/** The Kubernetes value types the StatefulSet webhook reads, reduced to what its
    decision depends on. They come from client libraries (apps/v1, core/v1,
    apimachinery's resource.Quantity) that are not part of this model. */
module Kube {

  datatype Option<+T> = None | Some(value: T)

  /** A resource quantity such as "10Gi" or "10240Mi".  `magnitude` is its exact
      value as a whole number of 1n (10^-9), the finest unit a parsed quantity keeps;
      `form` is everything else the library keeps about how it was written
      (suffix, format, cached text), which structural equality sees and
      numeric comparison does not. */
  datatype Quantity = Quantity(magnitude: int, form: string)

  /** The zero value `resource.Quantity{}`. */
  const ZeroQuantity: Quantity := Quantity(0, "")

  /** `Quantity.Cmp`: -1, 0 or 1 as x is less than, equal to or greater than y,
      comparing magnitudes only. */
  function Cmp(x: Quantity, y: Quantity): (c: int)
    ensures -1 <= c <= 1
    ensures c == 1 <==> x.magnitude > y.magnitude
    ensures c == 0 <==> x.magnitude == y.magnitude
    ensures c == -1 <==> x.magnitude < y.magnitude
  {
    if x.magnitude < y.magnitude then -1
    else if x.magnitude == y.magnitude then 0
    else 1
  }

  /** A volume claim template: its name, the `storage` entry of its resource
      requests (absent when the request map has no such key), and every other
      field, kept opaque, so that structural equality sees it. */
  datatype ClaimTemplate = ClaimTemplate(name: string, storage: Option<Quantity>, rest: string)

  /** A StatefulSet: identity, annotations and its volume claim templates. */
  datatype StatefulSet = StatefulSet(
    name: string,
    namespace: string,
    annotations: map<string, string>,
    templates: seq<ClaimTemplate>)

  /** The object the admission framework hands to the defaulter: a StatefulSet or
      an object of some other kind. */
  datatype Object = StatefulSetObject(sts: StatefulSet) | OtherObject(kind: string)

  datatype Propagation = Orphan | Background | Foreground

  /** One call of the client's Delete: the object and its propagation policy. */
  datatype DeleteCall = DeleteCall(target: StatefulSet, policy: Propagation)
}
