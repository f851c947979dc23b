/** URLs as net/url sees them: scheme, host, path and a query multimap. */
module Urls {
  import opened Text

  type Query = map<string, seq<string>>

  datatype Url = Url(scheme: string, host: string, path: string, query: Query)

  /** The value a parameter comes with, read first: an absent one counts as empty. */
  ghost predicate Carries(q: Query, key: string, value: string) {
    if key in q && |q[key]| > 0 then q[key][0] == value else value == ""
  }

  /** url.ParseQuery never leaves a key without values, and Encode drops such keys. */
  predicate ValidQuery(q: Query) {
    forall k | k in q :: q[k] != []
  }

  /** Values.Get: the first value, or "". */
  function Get(q: Query, key: string): string {
    if key in q && q[key] != [] then q[key][0] else ""
  }

  function Set(q: Query, key: string, value: string): Query {
    q[key := [value]]
  }

  function Del(q: Query, key: string): Query {
    q - {key}
  }

  /** url.Parse and URL.String. */
  datatype Codec = Codec(parse: string -> Option<Url>, render: Url -> string)

  predicate IsWeb(u: Url) {
    (u.scheme == "http" || u.scheme == "https") && u.host != ""
  }

  /** What is relied on: parsed queries are valid, and a parsed web URL given another query still
      survives rendering and parsing. */
  ghost predicate Faithful(c: Codec) {
    && (forall s: string | c.parse(s).Some? :: ValidQuery(c.parse(s).value.query))
    && (forall s: string, q: Query | c.parse(s).Some? && IsWeb(c.parse(s).value) && ValidQuery(q) ::
          var u := c.parse(s).value.(query := q);
          c.parse(c.render(u)) == Some(u))
  }

  /** strconv.Itoa on naturals. */
  function Decimal(n: nat): string {
    var digit := (n % 10 + 48) as char;
    if n < 10 then [digit] else Decimal(n / 10) + [digit]
  }

  function ReadDecimal(s: string): int {
    if s == "" then 0 else 10 * ReadDecimal(s[..|s| - 1]) + (s[|s| - 1] as int - 48)
  }

  /** It writes digits without leading zeros that read back as the number. */
  lemma {:induction false} DecimalReadsBack(n: nat)
    ensures var s := Decimal(n);
            && ReadDecimal(s) == n && s != "" && (forall c | c in s :: '0' <= c <= '9') && (n > 0 ==> s[0] != '0')
  {
    var s := Decimal(n);
    if n >= 10 {
      DecimalReadsBack(n / 10);
      assert s[..|s| - 1] == Decimal(n / 10);
    }
  }
}
