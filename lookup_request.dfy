/**
  * The lookup request the scanner sends for an item id: a GET of the item
  * service's URL whose query string carries the fixed credentials and the
  * id, and a small reader of query strings against which the URL's
  * contents are stated.
  */
module LookupRequest {
  import opened Wrappers
  import opened JsNumber

  const ApiHost: string := "https://erp.ayaanmr.com"
  const ApiPath: string := "/urlapi/api/url/getapi"
  const ApiUrl: string := ApiHost + ApiPath
  const ApiKey: string := "TESTKEYITM"
  const Uid: string := "API"
  const Upw: string := "ba1234"

  /** The URL fetched for item `id`: the id, written as JavaScript writes
      numbers, goes into both `P1` and `P2`, and `P3` and `P4` are left
      empty. */
  function LookupUrl(id: int): string {
    UrlTemplate(NumberToString(id))
  }

  /** The URL template with the id's text in place: the API URL, a `?`,
      and the seven `name=value` fields joined by `&`. */
  function UrlTemplate(idText: string): string {
    ApiUrl + "?" + Join(TemplateFields(idText), '&')
  }

  /** The text after the first `c` in `s`, empty when `s` has none. */
  function After(s: string, c: char): (r: string)
    ensures |r| <= |s|
  {
    if s == [] then [] else if s[0] == c then s[1..] else After(s[1..], c)
  }

  /** The text before the first `c` in `s`, all of `s` when it has none. */
  function Before(s: string, c: char): (r: string)
    ensures c !in r
  {
    if s == [] || s[0] == c then [] else [s[0]] + Before(s[1..], c)
  }

  /** `s` cut at every `sep`; there is always at least one piece. */
  function Split(s: string, sep: char): (r: seq<string>)
    ensures |r| > 0
    ensures forall k :: 0 <= k < |r| ==> sep !in r[k]
  {
    if s == [] then [[]]
    else
      var rest := Split(s[1..], sep);
      if s[0] == sep then [[]] + rest else [[s[0]] + rest[0]] + rest[1..]
  }

  /** The pieces joined back together with `sep` between them. */
  function Join(pieces: seq<string>, sep: char): string
    requires |pieces| > 0
  {
    if |pieces| == 1 then pieces[0] else pieces[0] + [sep] + Join(pieces[1..], sep)
  }

  /** The name/value pairs of a URL's query string, in order. */
  function QueryParams(url: string): seq<(string, string)> {
    var fields := Split(After(url, '?'), '&');
    seq(|fields|, k requires 0 <= k < |fields| => (Before(fields[k], '='), After(fields[k], '=')))
  }

  /** The name/value pairs the lookup request carries, in order. */
  function LookupParams(id: int): seq<(string, string)> {
    TemplateParams(NumberToString(id))
  }

  function TemplateParams(idText: string): seq<(string, string)> {
    [("APIKEY", ApiKey), ("UID", Uid), ("UPW", Upw),
     ("P1", idText), ("P2", idText), ("P3", ""), ("P4", "")]
  }

  /** The `name=value` fields of the template, in order:
      `APIKEY=TESTKEYITM&UID=API&UPW=ba1234&P1=<id>&P2=<id>&P3=&P4=`. */
  function TemplateFields(idText: string): seq<string> {
    ["APIKEY=" + ApiKey, "UID=" + Uid, "UPW=" + Upw,
     "P1=" + idText, "P2=" + idText, "P3=", "P4="]
  }

  lemma {:induction false} AfterPrefix(a: string, c: char, b: string)
    requires c !in a
    ensures After(a + [c] + b, c) == b
  {
    if a != [] {
      assert (a + [c] + b)[1..] == a[1..] + [c] + b;
      AfterPrefix(a[1..], c, b);
    } else {
      assert a + [c] + b == [c] + b;
    }
  }

  lemma {:induction false} BeforePrefix(a: string, c: char, b: string)
    requires c !in a
    ensures Before(a + [c] + b, c) == a
  {
    if a != [] {
      assert (a + [c] + b)[1..] == a[1..] + [c] + b;
      BeforePrefix(a[1..], c, b);
    } else {
      assert a + [c] + b == [c] + b;
    }
  }

  /** Splitting undoes joining when no piece contains the separator. */
  lemma {:induction false} SplitJoin(pieces: seq<string>, sep: char)
    requires |pieces| > 0
    requires forall k :: 0 <= k < |pieces| ==> sep !in pieces[k]
    ensures Split(Join(pieces, sep), sep) == pieces
  {
    if |pieces| == 1 {
      SplitPlain(pieces[0], sep);
    } else {
      SplitJoin(pieces[1..], sep);
      SplitCut(pieces[0], sep, Join(pieces[1..], sep));
    }
  }

  lemma {:induction false} SplitPlain(a: string, sep: char)
    requires sep !in a
    ensures Split(a, sep) == [a]
  {
    if a != [] {
      SplitPlain(a[1..], sep);
      assert [a[0]] + a[1..] == a;
    }
  }

  lemma {:induction false} SplitCut(a: string, sep: char, b: string)
    requires sep !in a
    ensures Split(a + [sep] + b, sep) == [a] + Split(b, sep)
  {
    if a == [] {
      assert a + [sep] + b == [sep] + b;
      assert ([sep] + b)[1..] == b;
    } else {
      assert (a + [sep] + b)[1..] == a[1..] + [sep] + b;
      SplitCut(a[1..], sep, b);
      assert [a[0]] + a[1..] == a;
    }
  }

  /** `name=value` reads back as the pair when the name has no `=`. */
  lemma Field(name: string, value: string)
    requires '=' !in name
    ensures Before(name + "=" + value, '=') == name
    ensures After(name + "=" + value, '=') == value
  {
    BeforePrefix(name, '=', value);
    AfterPrefix(name, '=', value);
  }

  lemma ApiUrlPlain()
    ensures '?' !in ApiUrl
  {
    assert '?' !in ApiHost;
    assert '?' !in ApiPath;
  }

  lemma TemplateQuery(idText: string)
    ensures After(UrlTemplate(idText), '?') == Join(TemplateFields(idText), '&')
  {
    ApiUrlPlain();
    AfterPrefix(ApiUrl, '?', Join(TemplateFields(idText), '&'));
  }

  lemma TemplateFieldsSplit(idText: string)
    requires '&' !in idText
    ensures Split(Join(TemplateFields(idText), '&'), '&') == TemplateFields(idText)
  {
    var fields := TemplateFields(idText);
    assert forall k :: 0 <= k < |fields| ==> '&' !in fields[k];
    SplitJoin(fields, '&');
  }

  lemma TemplateFieldsNamed(idText: string)
    requires '=' !in idText
    ensures forall k :: 0 <= k < 7 ==>
      Before(TemplateFields(idText)[k], '=') == TemplateParams(idText)[k].0 &&
      After(TemplateFields(idText)[k], '=') == TemplateParams(idText)[k].1
  {
    var ps := TemplateParams(idText);
    var fields := TemplateFields(idText);
    forall k | 0 <= k < 7
      ensures Before(fields[k], '=') == ps[k].0 && After(fields[k], '=') == ps[k].1
    {
      assert fields[k] == ps[k].0 + "=" + ps[k].1;
      Field(ps[k].0, ps[k].1);
    }
  }

  /** Reading the query string of the template gives back its parameters,
      in order, whatever id text without `&` or `=` is put in. */
  lemma TemplateParamsRead(idText: string)
    requires '&' !in idText && '=' !in idText
    ensures QueryParams(UrlTemplate(idText)) == TemplateParams(idText)
  {
    TemplateQuery(idText);
    TemplateFieldsSplit(idText);
    TemplateFieldsNamed(idText);
  }

  /** The lookup URL carries exactly the credentials, the id twice and two
      empty parameters, in this order. */
  lemma LookupUrlParams(id: int)
    ensures QueryParams(LookupUrl(id)) == LookupParams(id)
  {
    TemplateParamsRead(NumberToString(id));
  }

  /** The id read back from `P1` of the lookup URL by parseInt is the id the
      URL was built for. */
  lemma LookupUrlCarriesId(id: int)
    ensures |QueryParams(LookupUrl(id))| == 7
    ensures QueryParams(LookupUrl(id))[3].0 == "P1" && QueryParams(LookupUrl(id))[4].0 == "P2"
    ensures ParseInt(QueryParams(LookupUrl(id))[3].1) == Some(id)
    ensures ParseInt(QueryParams(LookupUrl(id))[4].1) == Some(id)
  {
    var n := NumberToString(id);
    LookupUrlParams(id);
    assert QueryParams(LookupUrl(id))[3].1 == n == QueryParams(LookupUrl(id))[4].1;
    ParseIntOfNumberToString([], id, []);
    assert [] + n + [] == n;
  }
}
