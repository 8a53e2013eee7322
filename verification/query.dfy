/**
 * The page links: the href `?page=${page}&limit=${limit}` built for every
 * link of the pagination bar, and how such a query string is read back
 * into search parameters when the link is followed.
 */
module Query {
  import opened Wrappers
  import opened Strings
  import opened Numbers
  import opened Guardrails

  /** The href of a page link: `?page=${page}&limit=${limit}`. */
  function Href(page: int, limit: int): (q: string)
    ensures ReadSearchParams(q) == SearchParams(Some(IntString(page)), Some(IntString(limit)))
  {
    var p, l := IntString(page), IntString(limit);
    NumeralLacks(p);
    NumeralLacks(l);
    ParamOfTwo("page", p, "limit", l);
    "?" + "page" + "=" + p + "&" + "limit" + "=" + l
  }

  /** The name of a `name=value` field: everything before the first '='. */
  function FieldName(f: string): string {
    f[..IndexOf(f, '=')]
  }

  /** The value of a `name=value` field: everything after the first '=', or "" when there is none. */
  function FieldValue(f: string): string {
    var i := IndexOf(f, '=');
    if i < |f| then f[i + 1..] else ""
  }

  /** The value of the first field called `name`. */
  function Lookup(fields: seq<string>, name: string): (v: Option<string>)
    ensures v.None? <==> forall k :: 0 <= k < |fields| ==> FieldName(fields[k]) != name
    ensures v.Some? ==> exists k :: 0 <= k < |fields| && FieldName(fields[k]) == name && FieldValue(fields[k]) == v.value
  {
    if fields == [] then None
    else if FieldName(fields[0]) == name then Some(FieldValue(fields[0]))
    else
      var v := Lookup(fields[1..], name);
      assert forall k :: 1 <= k < |fields| ==> fields[k] == fields[1..][k - 1];
      v
  }

  /** The search parameter `name` of a query string, after its leading '?'. */
  function Param(q: string, name: string): Option<string> {
    var body := if q != "" && q[0] == '?' then q[1..] else q;
    Lookup(Split(body, '&'), name)
  }

  /** The `page` and `limit` search parameters of a query string. */
  function ReadSearchParams(q: string): SearchParams {
    SearchParams(Param(q, "page"), Param(q, "limit"))
  }

  lemma NumeralLacks(s: string)
    requires Numeral(s)
    ensures Lacks(s, '&') && Lacks(s, '=')
  {
  }

  lemma LacksConcat(a: string, b: string, c: char)
    requires Lacks(a, c) && Lacks(b, c)
    ensures Lacks(a + b, c)
  {
    assert forall j :: |a| <= j < |a + b| ==> (a + b)[j] == b[j - |a|];
  }

  lemma FieldOf(name: string, value: string)
    requires Lacks(name, '=')
    ensures FieldName(name + "=" + value) == name
    ensures FieldValue(name + "=" + value) == value
  {
    var f := name + "=" + value;
    assert f[|name|] == '=';
    assert IndexOf(f, '=') == |name|;
    assert f[..|name|] == name;
    assert f[|name| + 1..] == value;
  }

  /** A query string `?n1=v1&n2=v2` holds `v1` under `n1` and `v2` under `n2`. */
  lemma ParamOfTwo(n1: string, v1: string, n2: string, v2: string)
    requires Lacks(n1, '&') && Lacks(n1, '=') && Lacks(v1, '&')
    requires Lacks(n2, '&') && Lacks(n2, '=') && Lacks(v2, '&')
    requires n1 != n2
    ensures Param("?" + n1 + "=" + v1 + "&" + n2 + "=" + v2, n1) == Some(v1)
    ensures Param("?" + n1 + "=" + v1 + "&" + n2 + "=" + v2, n2) == Some(v2)
  {
    var first, second := n1 + "=" + v1, n2 + "=" + v2;
    LacksConcat(n1, "=", '&');
    LacksConcat(n1 + "=", v1, '&');
    LacksConcat(n2, "=", '&');
    LacksConcat(n2 + "=", v2, '&');
    var q := "?" + n1 + "=" + v1 + "&" + n2 + "=" + v2;
    assert q[1..] == first + "&" + second;
    SplitFirst(first, '&', second);
    SplitWhole(second, '&');
    FieldOf(n1, v1);
    FieldOf(n2, v2);
    var fields := Split(q[1..], '&');
    assert fields == [first, second];
    assert Lookup(fields, n1) == Some(v1);
    assert Lookup(fields, n2) == Some(v2) by {
      assert fields[1..] == [second];
    }
  }

  /**
   * Following a page link fetches the page it names when that is at least
   * one and the first page otherwise, with its limit when that lies in
   * [1, 100] and ten otherwise.
   */
  lemma {:induction false} GuardHref(page: int, limit: int)
    ensures Guard(ReadSearchParams(Href(page, limit))) ==
      PageRequest(if page >= 1 then page as real else 1.0,
                  if 1 <= limit <= 100 then limit as real else 10.0)
  {
    NumberOfIntString(page);
    NumberOfIntString(limit);
  }

  /** Round trip: a valid page and limit written into a link are read back unchanged. */
  lemma {:induction false} HrefRoundTrip(page: int, limit: int)
    requires page >= 1 && 1 <= limit <= 100
    ensures Guard(ReadSearchParams(Href(page, limit))) == PageRequest(page as real, limit as real)
  {
    GuardHref(page, limit);
  }

  /** A query string without the parameters, or with them empty, gives the defaults. */
  lemma MissingParamsDefault()
    ensures Guard(ReadSearchParams("")) == PageRequest(1.0, 10.0)
    ensures Guard(ReadSearchParams("?page=&limit=")) == PageRequest(1.0, 10.0)
  {
    assert Split("", '&') == [""];
    assert FieldName("") == "";
    assert "?page=&limit=" == "?" + "page" + "=" + "" + "&" + "limit" + "=" + "";
    ParamOfTwo("page", "", "limit", "");
  }
}
