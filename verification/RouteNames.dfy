/** Route names: parseRouteName and worktreeParent in internal/daemon/worktree.go, validName in
    internal/daemon/api.go. */
module RouteNames {
  import opened Text

  predicate IsAlnum(c: char) {
    'a' <= c <= 'z' || '0' <= c <= '9'
  }

  /** validName */
  predicate ValidName(s: string) {
    && s != ""
    && IsAlnum(s[0]) && IsAlnum(s[|s| - 1])
    && forall c | c in s :: IsAlnum(c) || c == '-'
  }

  datatype Parsed = Ok(parent: string) | Bad

  function ParseRouteName(name: string): Parsed {
    var parts := Split(name, '.');
    if |parts| == 1 then (if ValidName(name) then Ok("") else Bad)
    else if |parts| == 2 then
      if ValidName(parts[0]) && parts[0] != "local" && ValidName(parts[1]) && parts[1] != "local" then Ok(parts[1])
      else Bad
    else Bad
  }

  /** A legal name has no character outside letters, digits, '-' and '.'; a worktree's name is longer
      than its app's and ends in it. */
  lemma LegalNames(name: string)
    requires ParseRouteName(name).Ok?
    ensures forall c | c in name :: IsAlnum(c) || c == '-' || c == '.'
    ensures var parent := ParseRouteName(name).parent;
            parent == "" || (HasSuffix(name, "." + parent) && |name| > |parent| + 1 && ParseRouteName(parent) == Ok(""))
  {
    var parts := Split(name, '.');
    JoinSplit(name, '.');
    SplitIsFree(name, '.');
    if |parts| == 2 {
      assert Join(parts[1..], '.') == parts[1];
      assert name == parts[0] + "." + parts[1];
      assert name[|parts[0]|..] == "." + parts[1];
      SplitAtom(parts[1], '.');
    } else {
      assert name == parts[0];
    }
  }

  /** Lower-case letters, digits and inner hyphens, at least one character. */
  ghost predicate IsLabel(s: string) {
    && s != ""
    && forall i | 0 <= i < |s| :: 'a' <= s[i] <= 'z' || '0' <= s[i] <= '9' || (s[i] == '-' && 0 < i < |s| - 1)
  }

  ghost predicate IsWorktreeOf(name: string, app: string) {
    exists own :: name == own + "." + app && IsLabel(own) && IsLabel(app) && own != "local" && app != "local"
  }

  lemma ValidIsLabel(s: string)
    ensures ValidName(s) <==> IsLabel(s)
    ensures IsLabel(s) ==> '.' !in s
  {
    if s != "" {
      assert s[0] in s && s[|s| - 1] in s;
      assert forall i | 0 <= i < |s| :: s[i] in s;
    }
  }

  /** The legal names are exactly the labels, which have no parent, and two labels with a dot between them, neither
      of them "local", of which the second is the parent. */
  lemma LegalExactly(name: string)
    ensures ParseRouteName(name) == Ok("") <==> IsLabel(name)
    ensures forall app | app != "" :: ParseRouteName(name) == Ok(app) <==> IsWorktreeOf(name, app)
  {
    var parts := Split(name, '.');
    JoinSplit(name, '.');
    ValidIsLabel(name);
    if IsLabel(name) {
      SplitAtom(name, '.');
    }
    if |parts| == 2 {
      assert Join(parts[1..], '.') == parts[1];
      assert name == parts[0] + "." + parts[1];
      ValidIsLabel(parts[0]);
      ValidIsLabel(parts[1]);
    }
    forall app | IsWorktreeOf(name, app)
      ensures ParseRouteName(name) == Ok(app)
    {
      var own :| name == own + "." + app && IsLabel(own) && IsLabel(app) && own != "local" && app != "local";
      ValidIsLabel(own);
      ValidIsLabel(app);
      SplitPrefix(own, app, '.');
      SplitAtom(app, '.');
    }
  }

  /** worktreeParent */
  function WorktreeParent(name: string): Option<string> {
    var parts := Split(name, '.');
    if |parts| != 2 || parts[0] == "" || parts[1] == "" then None else Some(parts[1])
  }

  /** `name` is a label, a dot and `app`, itself one label. */
  ghost predicate IsWorktreeHost(name: string, app: string) {
    exists own :: name == own + "." + app && own != "" && app != "" && '.' !in own && '.' !in app
  }

  /** A host name has at most one parent, and worktreeParent finds it. */
  lemma WorktreeHosts(name: string)
    ensures forall app :: IsWorktreeHost(name, app) <==> WorktreeParent(name) == Some(app)
  {
    var parts := Split(name, '.');
    JoinSplit(name, '.');
    SplitIsFree(name, '.');
    if |parts| == 2 {
      assert Join(parts[1..], '.') == parts[1];
      assert name == parts[0] + "." + parts[1];
    }
    forall app | IsWorktreeHost(name, app)
      ensures WorktreeParent(name) == Some(app)
    {
      var own :| name == own + "." + app && own != "" && app != "" && '.' !in own && '.' !in app;
      SplitPrefix(own, app, '.');
      SplitAtom(app, '.');
    }
  }
}
