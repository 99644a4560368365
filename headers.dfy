/**
 * HTTP header maps (`[String: String]`) and the "write every entry of one map
 * into another" step that both `SessionRequest.setHttpBody` and
 * `NetworkRepository.execute` perform with a `for (key, value) in ...` loop.
 */
module Headers {

  type Headers = map<string, string>

  /**
   * Right-biased union: every key of `base` or `layer`, the value of `layer`
   * wherever it has one, the value of `base` elsewhere. This is what a
   * sequence of `h[key] = value` writes for every entry of `layer` leaves.
   */
  function Overlay(base: Headers, layer: Headers): (r: Headers)
    ensures r.Keys == base.Keys + layer.Keys
    ensures forall k :: k in layer ==> r[k] == layer[k]
    ensures forall k :: k in base && k !in layer ==> r[k] == base[k]
  {
    base + layer
  }

  /**
   * The source's loop: starting from `base`, assign `layer[key]` for every key
   * of `layer`, in an order the dictionary chooses. Whatever the order, the
   * result is the overlay.
   */
  method WriteAll(base: Headers, layer: Headers) returns (r: Headers)
    ensures r == Overlay(base, layer)
  {
    r := base;
    var pending := layer.Keys;
    while pending != {}
      invariant pending <= layer.Keys
      invariant r.Keys == base.Keys + (layer.Keys - pending)
      invariant forall k :: k in layer.Keys - pending ==> r[k] == layer[k]
      invariant forall k :: k in base && k !in layer.Keys - pending ==> r[k] == base[k]
      decreases pending
    {
      var k :| k in pending;
      r := r[k := layer[k]];
      pending := pending - {k};
    }
  }

  /** Overlaying nothing changes nothing. */
  lemma OverlayEmpty(base: Headers)
    ensures Overlay(base, map[]) == base
    ensures Overlay(map[], base) == base
  {
  }
}
