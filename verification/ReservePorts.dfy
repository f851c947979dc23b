/** validateReservePorts in internal/daemon/api.go. */
module ReservePorts {
  import opened Text

  predicate IsLetter(c: char) {
    'a' <= c <= 'z' || 'A' <= c <= 'Z'
  }

  /** reservePortNamePattern */
  predicate IsIdentifier(s: string) {
    && s != "" && IsLetter(s[0])
    && forall c | c in s :: IsLetter(c) || '0' <= c <= '9' || c == '_'
  }

  /** The name a raw key stands for. */
  function Normal(rawName: string): string {
    ToLower(TrimSpace(rawName))
  }

  /** An entry that is acceptable on its own. */
  predicate EntryOk(rawName: string, p: int, primary: int, oauthCallback: int) {
    && IsIdentifier(Normal(rawName)) && Normal(rawName) != "port"
    && 1 <= p <= 65535 && p != primary && (oauthCallback > 0 ==> p != oauthCallback)
  }

  /** A letter, then letters, digits and underscores. */
  ghost predicate IsName(s: string) {
    && s != ""
    && forall i | 0 <= i < |s| ::
         || 'a' <= s[i] <= 'z' || 'A' <= s[i] <= 'Z'
         || (i > 0 && ('0' <= s[i] <= '9' || s[i] == '_'))
  }

  lemma LowerName(s: string)
    requires IsName(s)
    ensures IsIdentifier(ToLower(s)) && !IsSpace(s[0]) && !IsSpace(s[|s| - 1])
  {
    LowerAt(s);
    var t := ToLower(s);
    assert forall c | c in t :: exists i :: 0 <= i < |t| && t[i] == c;
  }

  lemma {:induction false} LowerAt(s: string)
    ensures |ToLower(s)| == |s| && forall i | 0 <= i < |s| :: ToLower(s)[i] == Lower(s[i])
  {
    if s != "" {
      LowerAt(s[1..]);
    }
  }

  /** An entry whose key is a name, in any case and with any spaces around it, is acceptable exactly if the name is not
      "port" and its port is a port number other than the primary one and the bridge's. */
  lemma NamesAreAcceptedExactly(before: string, name: string, after: string, p: int, primary: int, oauthCallback: int)
    requires Blank(before) && Blank(after) && IsName(name)
    ensures Normal(before + name + after) == ToLower(name)
    ensures EntryOk(before + name + after, p, primary, oauthCallback) <==>
              ToLower(name) != "port" && 1 <= p <= 65535 && p != primary && !(oauthCallback > 0 && p == oauthCallback)
  {
    LowerName(name);
    TrimSpaceOf(before, name, after);
  }

  /** What the check accepts, with no mention of an order: each entry on its own, and no two entries with
      the same port or the same name. */
  ghost predicate Acceptable(reserve: map<string, int>, primary: int, oauthCallback: int) {
    && (forall k | k in reserve :: EntryOk(k, reserve[k], primary, oauthCallback))
    && (forall a, b | a in reserve && b in reserve && reserve[a] == reserve[b] :: a == b)
    && (forall a, b | a in reserve && b in reserve && Normal(a) == Normal(b) :: a == b)
  }

  /** The same ports under the normalized names. */
  ghost predicate IsNormalized(reserve: map<string, int>, out: map<string, int>) {
    && (forall k | k in reserve :: Normal(k) in out && out[Normal(k)] == reserve[k])
    && (forall n | n in out :: exists k | k in reserve :: Normal(k) == n)
  }

  datatype ReserveError =
    EmptyName | BadName(key: string) | PortName(key: string) | OutOfRange(key: string)
    | IsPrimary(key: string) | IsOAuth(key: string) | SamePort(other: string, key: string) | SameName(key: string)

  datatype Validated = Accepted(out: map<string, int>) | Rejected(err: ReserveError)

  /** The checks of one entry. */
  method CheckEntry(rawName: string, p: int, primary: int, oauthCallback: int) returns (err: Option<ReserveError>)
    ensures err.None? <==> EntryOk(rawName, p, primary, oauthCallback)
    ensures err.Some? ==>
              match err.value
              case EmptyName => Blank(rawName)
              case BadName(key) => key == rawName && !IsIdentifier(Normal(rawName))
              case PortName(key) => key == rawName && Normal(rawName) == "port"
              case OutOfRange(key) => key == rawName && !(1 <= p <= 65535)
              case IsPrimary(key) => key == rawName && p == primary
              case IsOAuth(key) => key == rawName && oauthCallback > 0 && p == oauthCallback
              case _ => false
  {
    var name := ToLower(TrimSpace(rawName));
    TrimSpaceEmpty(rawName);
    if name == "" {
      return Some(EmptyName);
    }
    if !IsIdentifier(name) {
      return Some(BadName(rawName));
    }
    if name == "port" {
      return Some(PortName(rawName));
    }
    if p < 1 || p > 65535 {
      return Some(OutOfRange(rawName));
    }
    if p == primary {
      return Some(IsPrimary(rawName));
    }
    if oauthCallback > 0 && p == oauthCallback {
      return Some(IsOAuth(rawName));
    }
    return None;
  }

  /** The entries outside `todo` are in both maps, and nothing else is. */
  ghost predicate Entered(f: string -> string, reserve: map<string, int>, todo: set<string>, out: map<string, int>,
                          seenPort: map<int, string>) {
    && (forall k | k in reserve && k !in todo :: f(k) in out && out[f(k)] == reserve[k])
    && (forall k | k in reserve && k !in todo :: reserve[k] in seenPort && seenPort[reserve[k]] == k)
    && (forall p | p in seenPort :: seenPort[p] in reserve && seenPort[p] !in todo && reserve[seenPort[p]] == p)
    && (forall n | n in out :: exists k | k in reserve && k !in todo :: f(k) == n)
    && (forall a, b | a in reserve && b in reserve && a !in todo && b !in todo && f(a) == f(b) :: a == b)
  }

  lemma EnterOne(f: string -> string, reserve: map<string, int>, todo: set<string>, out: map<string, int>,
                 seenPort: map<int, string>, k: string)
    requires Entered(f, reserve, todo, out, seenPort) && k in todo && k in reserve
    requires reserve[k] !in seenPort && f(k) !in out
    ensures Entered(f, reserve, todo - {k}, out[f(k) := reserve[k]], seenPort[reserve[k] := k])
  {
    var out' := out[f(k) := reserve[k]];
    forall n | n in out'
      ensures exists j | j in reserve && j !in todo - {k} :: f(j) == n
    {
      if n != f(k) {
        var j :| j in reserve && j !in todo && f(j) == n;
        assert j !in todo - {k};
      } else {
        assert k !in todo - {k};
      }
    }
  }

  function Normalizer(): string -> string {
    (k: string) => Normal(k)
  }

  /** Keys come in any order; whether the map is accepted, and the result, do not depend on it. */
  method ValidateReservePorts(reserve: map<string, int>, primary: int, oauthCallback: int) returns (r: Validated)
    ensures r.Accepted? <==> Acceptable(reserve, primary, oauthCallback)
    ensures r.Accepted? ==> IsNormalized(reserve, r.out)
    ensures r.Rejected? && r.err.SamePort? ==>
              && r.err.other in reserve && r.err.key in reserve && r.err.other != r.err.key
              && reserve[r.err.other] == reserve[r.err.key]
    ensures r.Rejected? && r.err.SameName? ==>
              r.err.key in reserve
              && exists k | k in reserve :: k != r.err.key && Normal(k) == Normal(r.err.key)
  {
    if |reserve| == 0 {
      return Accepted(map[]);
    }
    ghost var f := Normalizer();
    var out: map<string, int> := map[];
    var seenPort: map<int, string> := map[];
    var todo := reserve.Keys;
    while todo != {}
      invariant todo <= reserve.Keys
      invariant forall k | k in reserve && k !in todo :: EntryOk(k, reserve[k], primary, oauthCallback)
      invariant Entered(f, reserve, todo, out, seenPort)
    {
      var rawName :| rawName in todo;
      var p := reserve[rawName];
      var name := Normal(rawName);
      var err := CheckEntry(rawName, p, primary, oauthCallback);
      if err.Some? {
        return Rejected(err.value);
      }
      if p in seenPort {
        return Rejected(SamePort(seenPort[p], rawName));
      }
      if name in out {
        ghost var other :| other in reserve && other !in todo && f(other) == name;
        return Rejected(SameName(rawName));
      }
      EnterOne(f, reserve, todo, out, seenPort, rawName);
      seenPort := seenPort[p := rawName];
      out := out[name := p];
      todo := todo - {rawName};
    }
    EnteredAll(reserve, primary, oauthCallback, out, seenPort);
    return Accepted(out);
  }

  lemma EnteredAll(reserve: map<string, int>, primary: int, oauthCallback: int, out: map<string, int>,
                   seenPort: map<int, string>)
    requires Entered(Normalizer(), reserve, {}, out, seenPort)
    requires forall k | k in reserve :: EntryOk(k, reserve[k], primary, oauthCallback)
    ensures Acceptable(reserve, primary, oauthCallback) && IsNormalized(reserve, out)
  {
    var f := Normalizer();
    assert forall k :: f(k) == Normal(k);
  }

  /** The entry behind a normalized name. */
  lemma EntryOf(reserve: map<string, int>, primary: int, oauthCallback: int, out: map<string, int>, n: string)
      returns (k: string)
    requires Acceptable(reserve, primary, oauthCallback) && IsNormalized(reserve, out) && n in out
    ensures k in reserve && Normal(k) == n && out[n] == reserve[k]
    ensures IsIdentifier(n) && ToLower(n) == n && n != "port" && 1 <= out[n] <= 65535 && out[n] != primary
    ensures oauthCallback > 0 ==> out[n] != oauthCallback
  {
    k :| k in reserve && Normal(k) == n;
    assert EntryOk(k, reserve[k], primary, oauthCallback);
    LowerTwice(TrimSpace(k));
  }

  /** Normalization leaves one result per map, and an accepted result is injective, as large as its input,
      with lower-case identifiers for names and ports in range that avoid the primary and the bridge. */
  lemma AcceptedIsInjective(reserve: map<string, int>, primary: int, oauthCallback: int, out: map<string, int>,
                            other: map<string, int>)
    requires Acceptable(reserve, primary, oauthCallback) && IsNormalized(reserve, out) && IsNormalized(reserve, other)
    ensures out == other && |out| == |reserve|
    ensures forall a, b | a in out && b in out && out[a] == out[b] :: a == b
    ensures forall n | n in out ::
              && IsName(n) && ToLower(n) == n && n != "port"
              && 1 <= out[n] <= 65535 && out[n] != primary && (oauthCallback > 0 ==> out[n] != oauthCallback)
  {
    SameResult(reserve, out, other);
    forall n | n in out
      ensures && IsName(n) && ToLower(n) == n && n != "port"
              && 1 <= out[n] <= 65535 && out[n] != primary && (oauthCallback > 0 ==> out[n] != oauthCallback)
    {
      var k := EntryOf(reserve, primary, oauthCallback, out, n);
      assert forall i | 0 <= i < |n| :: n[i] in n;
    }
    forall a, b | a in out && b in out && out[a] == out[b]
      ensures a == b
    {
      var ka := EntryOf(reserve, primary, oauthCallback, out, a);
      var kb := EntryOf(reserve, primary, oauthCallback, out, b);
    }
    ImageSize(reserve.Keys, (k: string) => Normal(k), out.Keys);
  }

  lemma SameResult(reserve: map<string, int>, out: map<string, int>, other: map<string, int>)
    requires IsNormalized(reserve, out) && IsNormalized(reserve, other)
    ensures out == other
  {
    forall n | n in out
      ensures n in other && other[n] == out[n]
    {
      var k :| k in reserve && Normal(k) == n;
    }
    forall n | n in other
      ensures n in out
    {
      var k :| k in reserve && Normal(k) == n;
    }
  }

  lemma {:induction false} LowerTwice(s: string)
    ensures ToLower(ToLower(s)) == ToLower(s)
  {
    if s != "" {
      LowerTwice(s[1..]);
    }
  }

  lemma {:induction false} ImageSize(keys: set<string>, f: string -> string, image: set<string>)
    requires forall a, b | a in keys && b in keys && f(a) == f(b) :: a == b
    requires forall k | k in keys :: f(k) in image
    requires forall n | n in image :: exists k | k in keys :: f(k) == n
    ensures |image| == |keys|
    decreases keys
  {
    if keys == {} {
      assert image == {};
    } else {
      var k :| k in keys;
      ImageSize(keys - {k}, f, image - {f(k)});
      assert image == image - {f(k)} + {f(k)};
    }
  }
}
