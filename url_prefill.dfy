/**
 * Checkbox pre-fill from the page's query string (script.js:161-180).
 *
 * The query string is taken as already parsed into (name, value) pairs, in
 * order; `get` returns the value of the first pair with the name, or `null`.
 * The services checkbox is checked when `service` is present and truthy
 * (non-empty); the portfolio checkbox when `interest` is exactly "portfolio".
 * Nothing is ever unchecked.
 */
module UrlPrefill {
  import opened Options

  /** One decoded query-string pair: (name, value). */
  type Param = (string, string)

  /** `URLSearchParams.get`: the value of the first pair named `name`, or `null` when there is none. */
  function Get(params: seq<Param>, name: string): (r: Option<string>)
    ensures r.None? <==> forall i :: 0 <= i < |params| ==> params[i].0 != name
    ensures r.Some? ==> exists i :: 0 <= i < |params| && params[i] == (name, r.value) &&
                                    forall j :: 0 <= j < i ==> params[j].0 != name
  {
    if params == [] then None
    else if params[0].0 == name then Some(params[0].1)
    else Get(params[1..], name)
  }

  /** The `service` test: the parameter is present and not the empty string. */
  predicate ChecksServices(service: Option<string>) {
    service.Some? && service.value != ""
  }

  /** The `interest` test: the parameter is exactly "portfolio". */
  predicate ChecksPortfolio(interest: Option<string>) {
    interest == Some("portfolio")
  }

  /** A checkbox input. */
  class Checkbox {
    var checked: bool

    constructor (checked: bool)
      ensures this.checked == checked
    {
      this.checked := checked;
    }
  }

  /**
   * The pre-fill run at load. Either checkbox may be missing from the page
   * (`null`). They are looked up by different `value` attributes, so they
   * are never the same input.
   */
  method Prefill(params: seq<Param>, servicesBox: Checkbox?, portfolioBox: Checkbox?)
    requires servicesBox == null || servicesBox != portfolioBox
    modifies servicesBox, portfolioBox
    ensures servicesBox != null ==>
      servicesBox.checked == (old(servicesBox.checked) || ChecksServices(Get(params, "service")))
    ensures portfolioBox != null ==>
      portfolioBox.checked == (old(portfolioBox.checked) || ChecksPortfolio(Get(params, "interest")))
  {
    var serviceParam := Get(params, "service");
    if serviceParam.Some? && serviceParam.value != "" {
      if servicesBox != null {
        servicesBox.checked := true;
      }
    }
    var interestParam := Get(params, "interest");
    if interestParam == Some("portfolio") {
      if portfolioBox != null {
        portfolioBox.checked := true;
      }
    }
  }

  /** Only the first `service` pair counts: an empty first value leaves the box alone whatever follows. */
  lemma FirstServiceDecides(params: seq<Param>, rest: seq<Param>, value: string)
    requires forall i :: 0 <= i < |params| ==> params[i].0 != "service"
    ensures ChecksServices(Get(params + [("service", value)] + rest, "service")) <==> value != ""
  {
    var all := params + [("service", value)] + rest;
    var r := Get(all, "service");
    assert all[|params|] == ("service", value);
    var i :| 0 <= i < |all| && all[i] == ("service", r.value) && forall j :: 0 <= j < i ==> all[j].0 != "service";
    assert i == |params|;
  }

  /** The query string `?service=services` checks the services box. */
  lemma ServiceExample()
    ensures ChecksServices(Get([("service", "services")], "service"))
    ensures !ChecksPortfolio(Get([("service", "services")], "interest"))
  {
  }
}
