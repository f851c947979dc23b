/** SanitizeName in internal/peer/pairing.go. */
module PeerName {
  import opened Text

  predicate IsPlain(c: char) {
    'a' <= c <= 'z' || '0' <= c <= '9'
  }

  /** Runs of other characters become one '-'; none is written where one was just written. */
  function Collapse(h: string, prevDash: bool): string {
    if h == "" then ""
    else if IsPlain(h[0]) then [h[0]] + Collapse(h[1..], false)
    else if prevDash then Collapse(h[1..], true)
    else "-" + Collapse(h[1..], true)
  }

  function TrimSuffix(s: string, suffix: string): string {
    if HasSuffix(s, suffix) then s[..|s| - |suffix|] else s
  }

  function TrimDashesLeft(s: string): string {
    if s != "" && s[0] == '-' then TrimDashesLeft(s[1..]) else s
  }

  function TrimDashesRight(s: string): string {
    if s != "" && s[|s| - 1] == '-' then TrimDashesRight(s[..|s| - 1]) else s
  }

  /** strings.Trim(s, "-") */
  function TrimDashes(s: string): string {
    TrimDashesRight(TrimDashesLeft(s))
  }

  function Sanitized(host: string): string {
    var out := TrimDashes(Collapse(TrimSuffix(ToLower(host), ".local"), true));
    if out == "" then "peer" else out
  }

  method SanitizeName(host: string) returns (name: string)
    ensures name == Sanitized(host)
  {
    var h := TrimSuffix(ToLower(host), ".local");
    var b := "";
    var prevDash := true;
    var i := 0;
    while i < |h|
      invariant 0 <= i <= |h|
      invariant b + Collapse(h[i..], prevDash) == Collapse(h, true)
    {
      assert h[i..][1..] == h[i + 1..];
      var c := h[i];
      if IsPlain(c) {
        assert b + ([c] + Collapse(h[i + 1..], false)) == (b + [c]) + Collapse(h[i + 1..], false);
        b := b + [c];
        prevDash := false;
      } else if !prevDash {
        assert b + ("-" + Collapse(h[i + 1..], true)) == (b + "-") + Collapse(h[i + 1..], true);
        b := b + "-";
        prevDash := true;
      }
      i := i + 1;
    }
    assert b + "" == b;
    name := TrimDashes(b);
    if name == "" {
      name := "peer";
    }
  }

  /** Letters, digits and single dashes between them. */
  predicate IsPeerName(s: string) {
    var single := SingleDashes(s);
    s != "" && s[0] != '-' && s[|s| - 1] != '-' && single
  }

  predicate SingleDashes(s: string) {
    forall i | 0 <= i < |s| :: IsPlain(s[i]) || (s[i] == '-' && (i > 0 ==> s[i - 1] != '-'))
  }

  lemma {:induction false} CollapseIsClean(h: string, prevDash: bool)
    ensures var s := Collapse(h, prevDash); SingleDashes(s) && (prevDash && s != "" ==> s[0] != '-')
  {
    if h != "" {
      CollapseIsClean(h[1..], false);
      CollapseIsClean(h[1..], true);
    }
  }

  lemma {:induction false} TrimLeftIsSuffix(s: string)
    ensures var t := TrimDashesLeft(s); |t| <= |s| && t == s[|s| - |t|..] && (t != "" ==> t[0] != '-')
  {
    if s != "" && s[0] == '-' {
      TrimLeftIsSuffix(s[1..]);
    }
  }

  lemma {:induction false} TrimRightIsPrefix(s: string)
    ensures var t := TrimDashesRight(s); |t| <= |s| && t == s[..|t|] && (t != "" ==> t[|t| - 1] != '-')
  {
    if s != "" && s[|s| - 1] == '-' {
      TrimRightIsPrefix(s[..|s| - 1]);
    }
  }

  lemma {:induction false} CleanStays(s: string, prevDash: bool)
    requires SingleDashes(s) && (prevDash && s != "" ==> s[0] != '-')
    ensures Collapse(s, prevDash) == s
  {
    if s != "" {
      CleanStays(s[1..], s[0] == '-');
      assert s == [s[0]] + s[1..];
    }
  }

  lemma {:induction false} LowerStays(s: string)
    requires forall i | 0 <= i < |s| :: IsPlain(s[i]) || s[i] == '-'
    ensures ToLower(s) == s
  {
    if s != "" {
      LowerStays(s[1..]);
      assert s == [s[0]] + s[1..];
    }
  }

  lemma SliceIsClean(s: string, lo: nat, hi: nat)
    requires SingleDashes(s) && lo <= hi <= |s|
    ensures SingleDashes(s[lo..hi])
  {
    var t := s[lo..hi];
    assert forall i | 0 <= i < |t| :: t[i] == s[lo + i];
  }

  lemma TrimmedIsName(s: string)
    requires SingleDashes(s)
    ensures TrimDashes(s) == "" || IsPeerName(TrimDashes(s))
  {
    var l := TrimDashesLeft(s);
    var t := TrimDashesRight(l);
    TrimLeftIsSuffix(s);
    TrimRightIsPrefix(l);
    SliceIsClean(s, |s| - |l|, |s|);
    SliceIsClean(l, 0, |t|);
    assert t != "" ==> t[0] == l[0];
  }

  lemma NameIsFixed(host: string)
    requires IsPeerName(host)
    ensures Sanitized(host) == host
  {
    LowerStays(host);
    if |host| >= 6 {
      assert host[|host| - 6..][0] == host[|host| - 6];
    }
    CleanStays(host, true);
  }

  /** Every result is a peer name, and the peer names are exactly the hosts left as they are; so a second
      pass changes nothing. */
  lemma PeerNamesAreTheFixedPoints(host: string)
    ensures IsPeerName(Sanitized(host))
    ensures IsPeerName(host) <==> Sanitized(host) == host
  {
    var h := TrimSuffix(ToLower(host), ".local");
    CollapseIsClean(h, true);
    TrimmedIsName(Collapse(h, true));
    assert IsPeerName("peer");
    if IsPeerName(host) {
      NameIsFixed(host);
    }
  }

  // ---- What is kept of a host ----

  /** Everything but letters and digits as a dash. */
  function Dashed(h: string): (r: string)
    ensures |r| == |h|
  {
    seq(|h|, i requires 0 <= i < |h| => if 'a' <= h[i] <= 'z' || '0' <= h[i] <= '9' then h[i] else '-')
  }

  /** The pieces that are not empty. */
  function Words(pieces: seq<string>): seq<string> {
    Without(pieces, (p: string) => p == "")
  }

  ghost function Tail(h: string): string {
    if h != "" && Dashed(h)[|h| - 1] == '-' then "-" else ""
  }

  lemma DashedCons(h: string)
    requires h != ""
    ensures Dashed(h) == [if IsPlain(h[0]) then h[0] else '-'] + Dashed(h[1..])
    ensures var p, q := Split(Dashed(h), '-'), Split(Dashed(h[1..]), '-');
            p == if IsPlain(h[0]) then [[h[0]] + q[0]] + q[1..] else [[]] + q
    ensures h[1..] != "" ==> Tail(h) == Tail(h[1..])
  {
    var d := Dashed(h);
    assert d[1..] == Dashed(h[1..]);
    assert h[1..] != "" ==> h[1..][|h| - 2] == h[|h| - 1];
  }

  /** Where the last piece is empty, the host ends in something else than a letter or digit. */
  lemma {:induction false} TailOfPieces(h: string)
    ensures var p := Split(Dashed(h), '-');
            && (|p| == 1 ==> p[0] == Dashed(h) && Tail(h) == "")
            && (|p| > 1 && Words(p[1..]) == [] ==> Tail(h) == "-")
  {
    var d := Dashed(h);
    var p := Split(d, '-');
    JoinSplit(d, '-');
    SplitIsFree(d, '-');
    assert p[0] in p;
    if |p| == 1 {
      assert Tail(h) == "-" ==> d[|h| - 1] in p[0];
    } else {
      DashedCons(h);
      TailOfPieces(h[1..]);
      var q := Split(Dashed(h[1..]), '-');
      if IsPlain(h[0]) {
        assert p[1..] == q[1..];
      } else {
        assert p[1..] == q;
        if Words(q) == [] && h[1..] != "" {
          assert q[0] == "";
        }
      }
    }
  }

  lemma WordsCons(p: string, pieces: seq<string>)
    ensures Words([p] + pieces) == (if p == "" then [] else [p]) + Words(pieces)
  {
    assert ([p] + pieces)[1..] == pieces;
  }

  /** The words of the pieces, joined, and what comes after the first piece. */
  ghost function Whole(pieces: seq<string>, tail: string): string {
    var words := Words(pieces);
    if words == [] then "" else Join(words, '-') + tail
  }

  ghost function Rest(pieces: seq<string>, tail: string): string
    requires pieces != []
  {
    if |pieces| == 1 then "" else "-" + Whole(pieces[1..], tail)
  }

  lemma FirstAndRest(p: string, later: seq<string>, tail: string)
    requires p != "" && if later == [] then tail == "" else Words(later) == [] ==> tail == "-"
    ensures Whole([p] + later, tail) == p + Rest([p] + later, tail)
  {
    var words := Words(later);
    assert ([p] + later)[1..] == later && ([p] + words)[1..] == words;
    WordsCons(p, later);
    if words != [] {
      assert Join([p] + words, '-') + tail == p + ("-" + (Join(words, '-') + tail));
    }
  }

  lemma CollapseCons(h: string)
    requires h != ""
    ensures IsPlain(h[0]) ==> Collapse(h, true) == Collapse(h, false) == [h[0]] + Collapse(h[1..], false)
    ensures !IsPlain(h[0]) ==> Collapse(h, true) == Collapse(h[1..], true)
    ensures !IsPlain(h[0]) ==> Collapse(h, false) == "-" + Collapse(h[1..], true)
  {
  }

  lemma NoWords(h: string)
    requires h == ""
    ensures Split(Dashed(h), '-') == [""] && Words([""]) == []
  {
    assert Dashed(h) == "";
    WordsCons("", []);
  }

  /** What the loop makes of a host, from its start and from the middle of a run. */
  lemma {:induction false} CollapseJoins(h: string)
    ensures var p := Split(Dashed(h), '-');
            Collapse(h, true) == Whole(p, Tail(h)) && Collapse(h, false) == p[0] + Rest(p, Tail(h))
  {
    if h == "" {
      NoWords(h);
    } else {
      CollapseJoins(h[1..]);
      CollapseCons(h);
      DashedCons(h);
      var q := Split(Dashed(h[1..]), '-');
      if IsPlain(h[0]) {
        PlainPieces(h, q);
      } else {
        OtherPieces(h, q);
      }
    }
  }

  lemma PlainPieces(h: string, q: seq<string>)
    requires h != "" && IsPlain(h[0]) && q == Split(Dashed(h[1..]), '-')
    ensures var p := [[h[0]] + q[0]] + q[1..];
            && Rest(p, Tail(h)) == Rest(q, Tail(h[1..]))
            && Whole(p, Tail(h)) == p[0] + Rest(p, Tail(h)) == [h[0]] + (q[0] + Rest(q, Tail(h[1..])))
  {
    var p := [[h[0]] + q[0]] + q[1..];
    assert p[1..] == q[1..];
    TailOfPieces(h[1..]);
    DashedCons(h);
    FirstAndRest(p[0], q[1..], Tail(h));
  }

  lemma OtherPieces(h: string, q: seq<string>)
    requires h != "" && !IsPlain(h[0]) && q == Split(Dashed(h[1..]), '-')
    ensures var p := [""] + q;
            && Whole(p, Tail(h)) == Whole(q, Tail(h[1..]))
            && Rest(p, Tail(h)) == "-" + Whole(q, Tail(h[1..]))
  {
    assert ([""] + q)[1..] == q;
    WordsCons("", q);
    DashedCons(h);
    if h[1..] == "" {
      NoWords(h[1..]);
    }
  }

  lemma {:induction false} JoinedHasNoEdges(words: seq<string>)
    requires words != [] && FreeOf(words, '-') && forall w | w in words :: w != ""
    ensures var s := Join(words, '-'); s != "" && s[0] != '-' && s[|s| - 1] != '-'
  {
    assert words[0] in words;
    var first := words[0];
    assert first[0] in first && first[|first| - 1] in first;
    if |words| > 1 {
      assert forall w | w in words[1..] :: w in words;
      JoinedHasNoEdges(words[1..]);
    }
  }

  /** A peer's name is the runs of letters and digits of its lower-cased host, less a final ".local", with one dash
      between each two; a host without any is called "peer". */
  lemma NameJoinsTheRuns(host: string, h: string)
    requires ToLower(host) == h + ".local" || (ToLower(host) == h && !HasSuffix(h, ".local"))
    ensures var runs := Words(Split(Dashed(h), '-'));
            Sanitized(host) == if runs == [] then "peer" else Join(runs, '-')
  {
    assert TrimSuffix(ToLower(host), ".local") == h;
    var pieces := Split(Dashed(h), '-');
    var runs := Words(pieces);
    CollapseJoins(h);
    if runs != [] {
      WithoutDrops(pieces, (p: string) => p == "");
      SplitIsFree(Dashed(h), '-');
      JoinedHasNoEdges(runs);
      var name, out := Join(runs, '-'), Collapse(h, true);
      assert TrimDashesLeft(out) == out;
      assert out != name ==> out[..|out| - 1] == name;
      assert TrimDashesRight(name) == name;
    }
  }

  /** Different hosts may get one name. */
  lemma HostsCollide() returns (a: string, b: string)
    ensures a != b && Sanitized(a) == Sanitized(b) == "a-b"
  {
    a, b := "a-b", "a_b";
    assert ToLower("b") == "b" && ToLower("_b") == "_b" && ToLower(b) == b;
    assert IsPeerName(a);
    NameIsFixed(a);
    LowerStays(a);
    assert Dashed(a) == Dashed(b);
    NameJoinsTheRuns(a, a);
    NameJoinsTheRuns(b, b);
  }
}
