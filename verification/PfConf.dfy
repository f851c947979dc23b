/** cmd/pf_darwin.go: patching vibe's two lines into pf.conf and stripping them out again. */
module PfConf {
  import opened Text

  /** The literals the patcher works with; PF below holds the real ones. */
  datatype Rules = Rules(rdrAnchorLine: string, loadLine: string, filters: seq<string>, translations: seq<string>)

  const PF_RDR_ANCHOR_LINE := "rdr-anchor \"com.vibe" + "\""
  const PF_LOAD_LINE := "load anchor \"" + "com.vibe" + "\" from \"" + "/etc/pf.anchors/" + "com.vibe" + "\""
  const FILTER_WORDS := ["anchor", "pass", "block", "match", "antispoof"]
  const TRANSLATION_WORDS := ["rdr-anchor", "nat-anchor", "rdr", "nat", "binat", "binat-anchor", "no rdr", "no nat"]

  const PF := Rules(PF_RDR_ANCHOR_LINE, PF_LOAD_LINE, FILTER_WORDS, TRANSLATION_WORDS)

  predicate StartsWithWord(line: string, words: seq<string>) {
    var t := TrimSpace(line);
    exists i | 0 <= i < |words| :: t == words[i] || HasPrefix(t, words[i] + " ")
  }

  predicate IsFilter(r: Rules, line: string) {
    StartsWithWord(line, r.filters)
  }

  predicate IsTranslation(r: Rules, line: string) {
    StartsWithWord(line, r.translations)
  }

  predicate HasLine(lines: seq<string>, want: string) {
    exists i | 0 <= i < |lines| :: TrimSpace(lines[i]) == want
  }

  /** No filter word and translation word can begin the same line. */
  ghost predicate WordsDiffer(filters: seq<string>, translations: seq<string>) {
    && (forall i | 0 <= i < |filters| :: |filters[i]| >= 2)
    && (forall j | 0 <= j < |translations| :: |translations[j]| >= 2)
    && (forall i, j | 0 <= i < |filters| && 0 <= j < |translations| ::
          filters[i][0] != translations[j][0] || filters[i][1] != translations[j][1])
  }

  /** What the proofs need of the literals: vibe's own lines sit in the sections pf expects. */
  ghost predicate Sane(r: Rules) {
    && TrimSpace(r.rdrAnchorLine) == r.rdrAnchorLine && TrimSpace(r.loadLine) == r.loadLine
    && IsTranslation(r, r.rdrAnchorLine) && !IsFilter(r, r.rdrAnchorLine)
    && !IsTranslation(r, r.loadLine) && !IsFilter(r, r.loadLine)
    && r.rdrAnchorLine != "" && r.loadLine != ""
    && '\n' !in r.rdrAnchorLine && '\n' !in r.loadLine
    && WordsDiffer(r.filters, r.translations)
  }

  /** pf's section order: no translation line after a filter line. */
  ghost predicate Ordered(r: Rules, lines: seq<string>) {
    forall i, j | 0 <= i < j < |lines| :: IsFilter(r, lines[i]) ==> !IsTranslation(r, lines[j])
  }

  // ---- What the patch does to the lines ----

  ghost predicate IsInsertPoint(r: Rules, lines: seq<string>, at: nat) {
    && at <= |lines|
    && (forall i | at <= i < |lines| :: !IsTranslation(r, lines[i]))
    && ((at > 0 && IsTranslation(r, lines[at - 1]))
        || ((forall i | 0 <= i < at :: !IsTranslation(r, lines[i]) && !IsFilter(r, lines[i]))
            && (at == |lines| || IsFilter(r, lines[at]))))
  }

  function Insert(r: Rules, lines: seq<string>, at: nat): seq<string>
    requires at <= |lines|
  {
    lines[..at] + [r.rdrAnchorLine] + lines[at..]
  }

  function AddLoad(r: Rules, lines: seq<string>): seq<string>
    requires |lines| > 0
  {
    var n := |lines|;
    if TrimSpace(lines[n - 1]) == "" then lines[..n - 1] + [r.loadLine, ""] else lines + [r.loadLine]
  }

  predicate IsVibeLine(r: Rules, line: string) {
    TrimSpace(line) == r.rdrAnchorLine || TrimSpace(line) == r.loadLine
  }

  function VibeLine(r: Rules): string -> bool {
    (line: string) => IsVibeLine(r, line)
  }

  function Kept(r: Rules, lines: seq<string>): seq<string> {
    Without(lines, VibeLine(r))
  }

  /** The lines of the patched file, when the insert point is `at`. */
  function PatchedLines(r: Rules, lines: seq<string>, at: nat): (out: seq<string>)
    requires |lines| > 0 && at <= |lines|
  {
    var withRdr := if HasLine(lines, r.rdrAnchorLine) then lines else Insert(r, lines, at);
    if HasLine(lines, r.loadLine) then withRdr else AddLoad(r, withRdr)
  }

  /** The result of one patch, as a relation on file contents. */
  ghost predicate PatchOf(r: Rules, conf: string, patched: string, changed: bool) {
    var lines := Split(conf, '\n');
    && changed == !(HasLine(lines, r.rdrAnchorLine) && HasLine(lines, r.loadLine))
    && exists at: nat :: IsInsertPoint(r, lines, at) && patched == Join(PatchedLines(r, lines, at), '\n')
  }

  // ---- The code ----

  method ContainsLine(conf: string, want: string) returns (found: bool)
    ensures found == HasLine(Split(conf, '\n'), want)
  {
    var lines := Split(conf, '\n');
    for i := 0 to |lines|
      invariant !HasLine(lines[..i], want)
    {
      if TrimSpace(lines[i]) == want {
        return true;
      }
    }
    assert lines[..|lines|] == lines;
    return false;
  }

  method FindInsertPoint(r: Rules, lines: seq<string>) returns (at: nat)
    ensures IsInsertPoint(r, lines, at)
  {
    var insertAt := -1;
    for i := 0 to |lines|
      invariant -1 <= insertAt <= i && insertAt != 0
      invariant insertAt > 0 ==> IsTranslation(r, lines[insertAt - 1])
      invariant forall k | (if insertAt < 0 then 0 else insertAt) <= k < i :: !IsTranslation(r, lines[k])
    {
      if IsTranslation(r, lines[i]) {
        insertAt := i + 1;
      }
    }
    if insertAt != -1 {
      return insertAt;
    }
    for i := 0 to |lines|
      invariant forall k | 0 <= k < i :: !IsFilter(r, lines[k])
    {
      if IsFilter(r, lines[i]) {
        return i;
      }
    }
    return |lines|;
  }

  method InsertAnchor(r: Rules, lines: seq<string>, insertAt: nat) returns (out: seq<string>)
    requires insertAt <= |lines|
    ensures out == Insert(r, lines, insertAt)
  {
    out := [];
    for i := 0 to |lines|
      invariant out == if i <= insertAt then lines[..i] else lines[..insertAt] + [r.rdrAnchorLine] + lines[insertAt..i]
    {
      if i == insertAt {
        out := out + [r.rdrAnchorLine];
      }
      out := out + [lines[i]];
    }
    if insertAt >= |lines| {
      out := out + [r.rdrAnchorLine];
    }
  }

  method Patch(r: Rules, conf: string) returns (patched: string, changed: bool)
    ensures PatchOf(r, conf, patched, changed)
  {
    var hasRdr := ContainsLine(conf, r.rdrAnchorLine);
    var hasLoad := ContainsLine(conf, r.loadLine);
    var lines := Split(conf, '\n');
    var insertAt := FindInsertPoint(r, lines);
    if hasRdr && hasLoad {
      JoinSplit(conf, '\n');
      return conf, false;
    }
    if !hasRdr {
      lines := InsertAnchor(r, lines, insertAt);
    }
    if !hasLoad {
      var n := |lines|;
      if n > 0 && TrimSpace(lines[n - 1]) == "" {
        lines := lines[..n - 1] + [r.loadLine, ""];
      } else {
        lines := lines + [r.loadLine];
      }
    }
    patched, changed := Join(lines, '\n'), true;
  }

  method Strip(r: Rules, conf: string) returns (stripped: string, changed: bool)
    ensures stripped == Join(Kept(r, Split(conf, '\n')), '\n')
    ensures changed == exists i | 0 <= i < |Split(conf, '\n')| :: IsVibeLine(r, Split(conf, '\n')[i])
  {
    var lines := Split(conf, '\n');
    var out := [];
    changed := false;
    for i := 0 to |lines|
      invariant out == Kept(r, lines[..i])
      invariant changed == exists k | 0 <= k < i :: IsVibeLine(r, lines[k])
    {
      WithoutConcat(lines[..i], [lines[i]], VibeLine(r));
      assert lines[..i + 1] == lines[..i] + [lines[i]];
      var t := TrimSpace(lines[i]);
      if t == r.rdrAnchorLine || t == r.loadLine {
        changed := true;
        continue;
      }
      out := out + [lines[i]];
    }
    assert lines[..|lines|] == lines;
    stripped := Join(out, '\n');
  }

  // ---- What the two commands guarantee ----

  ghost predicate Begins(line: string, word: string) {
    var t := TrimSpace(line);
    t == word || word + " " <= t
  }

  lemma WordsBegin(line: string, words: seq<string>)
    ensures StartsWithWord(line, words) <==> exists w :: w in words && Begins(line, w)
  {
    if StartsWithWord(line, words) {
      var t := TrimSpace(line);
      var i :| 0 <= i < |words| && (t == words[i] || HasPrefix(t, words[i] + " "));
      assert words[i] in words && Begins(line, words[i]);
    }
  }

  /** The words by which vibe tells pf's two sections apart. */
  lemma RealFilterWords(line: string)
    ensures IsFilter(PF, line) <==>
            exists w :: w in ["anchor", "pass", "block", "match", "antispoof"] && Begins(line, w)
  {
    WordsBegin(line, FILTER_WORDS);
  }

  lemma RealTranslationWords(line: string)
    ensures IsTranslation(PF, line) <==>
            exists w :: && w in ["rdr-anchor", "nat-anchor", "rdr", "nat", "binat", "binat-anchor", "no rdr", "no nat"]
                        && Begins(line, w)
  {
    WordsBegin(line, TRANSLATION_WORDS);
  }

  lemma RealRulesAreSane()
    ensures Sane(PF)
  {
    RealWordsDiffer();
    RealRdrAnchorLine();
    RealLoadLine();
    assert HasPrefix(PF_RDR_ANCHOR_LINE, TRANSLATION_WORDS[0] + " ");
    OtherWord(PF_RDR_ANCHOR_LINE, FILTER_WORDS);
    OtherWord(PF_LOAD_LINE, FILTER_WORDS);
    OtherWord(PF_LOAD_LINE, TRANSLATION_WORDS);
  }

  lemma RealWordsDiffer()
    ensures WordsDiffer(FILTER_WORDS, TRANSLATION_WORDS)
  {
    forall i | 0 <= i < |FILTER_WORDS|
      ensures |FILTER_WORDS[i]| >= 2
      ensures FILTER_WORDS[i][0] != 'r' && FILTER_WORDS[i][0] != 'n' && FILTER_WORDS[i][0] != 'l'
      ensures FILTER_WORDS[i][0] == 'b' ==> FILTER_WORDS[i][1] == 'l'
    {
      if i == 0 {
        assert FILTER_WORDS[0] == "anchor";
      }
    }
    forall j | 0 <= j < |TRANSLATION_WORDS|
      ensures |TRANSLATION_WORDS[j]| >= 2
      ensures TRANSLATION_WORDS[j][0] == 'r' || TRANSLATION_WORDS[j][0] == 'n'
              || (TRANSLATION_WORDS[j][0] == 'b' && TRANSLATION_WORDS[j][1] == 'i')
    {
    }
  }

  lemma RealRdrAnchorLine()
    ensures var line := PF_RDR_ANCHOR_LINE;
            TrimSpace(line) == line && line != "" && line[0] == 'r' && '\n' !in line
  {
    TrimSolid(PF_RDR_ANCHOR_LINE);
  }

  lemma RealLoadLine()
    ensures var line := PF_LOAD_LINE;
            TrimSpace(line) == line && line != "" && line[0] == 'l' && '\n' !in line
  {
    TrimSolid(PF_LOAD_LINE);
  }

  lemma SectionsDisjoint(r: Rules, line: string)
    requires Sane(r)
    ensures !(IsFilter(r, line) && IsTranslation(r, line))
  {
    var t := TrimSpace(line);
    if IsFilter(r, line) && IsTranslation(r, line) {
      var i :| 0 <= i < |r.filters| && (t == r.filters[i] || HasPrefix(t, r.filters[i] + " "));
      var j :| 0 <= j < |r.translations| && (t == r.translations[j] || HasPrefix(t, r.translations[j] + " "));
      StartOfWord(t, r.filters[i]);
      StartOfWord(t, r.translations[j]);
    }
  }

  lemma StartOfWord(t: string, word: string)
    requires |word| >= 2 && (t == word || HasPrefix(t, word + " "))
    ensures |t| >= 2 && t[0] == word[0] && t[1] == word[1]
  {
    assert (word + " ")[0] == word[0] && (word + " ")[1] == word[1];
  }

  lemma OtherWord(line: string, words: seq<string>)
    requires line != "" && TrimSpace(line) == line
    requires forall i | 0 <= i < |words| :: words[i] != "" && words[i][0] != line[0]
    ensures !StartsWithWord(line, words)
  {
    forall i | 0 <= i < |words|
      ensures !HasPrefix(line, words[i] + " ")
    {
      assert (words[i] + " ")[0] == words[i][0];
    }
  }

  lemma BlankIsPlain(r: Rules, line: string)
    requires Sane(r) && TrimSpace(line) == ""
    ensures !IsTranslation(r, line) && !IsFilter(r, line) && !IsVibeLine(r, line)
  {
  }

  /** Ordered, for any two kinds of line. */
  ghost predicate OrderedBy(first: string -> bool, last: string -> bool, lines: seq<string>) {
    forall i, j | 0 <= i < j < |lines| :: last(lines[i]) ==> !first(lines[j])
  }

  lemma InsertIntoOrdered(first: string -> bool, last: string -> bool, lines: seq<string>, at: nat, line: string)
    requires at <= |lines| && !last(line)
    requires forall i | at <= i < |lines| :: !first(lines[i])
    requires (at > 0 && first(lines[at - 1]) && !last(lines[at - 1])) || forall i | 0 <= i < at :: !last(lines[i])
    ensures OrderedBy(first, last, lines[..at] + [line] + lines[at..]) <==> OrderedBy(first, last, lines)
  {
    var out := lines[..at] + [line] + lines[at..];
    assert forall k | 0 <= k < at :: out[k] == lines[k];
    assert forall k | at <= k < |lines| :: out[k + 1] == lines[k];
    if OrderedBy(first, last, lines) || OrderedBy(first, last, out) {
      forall i | 0 <= i < at
        ensures !last(lines[i])
      {
        assert out[i] == lines[i] && out[at - 1] == lines[at - 1];
      }
    }
  }

  lemma InsertKeepsOrder(r: Rules, lines: seq<string>, at: nat)
    requires Sane(r) && IsInsertPoint(r, lines, at)
    ensures Ordered(r, Insert(r, lines, at)) <==> Ordered(r, lines)
  {
    var first, last := (l: string) => IsTranslation(r, l), (l: string) => IsFilter(r, l);
    if at > 0 {
      SectionsDisjoint(r, lines[at - 1]);
    }
    InsertIntoOrdered(first, last, lines, at, r.rdrAnchorLine);
    OrderedIsBy(r, lines, first, last);
    OrderedIsBy(r, Insert(r, lines, at), first, last);
  }

  lemma OrderedIsBy(r: Rules, lines: seq<string>, first: string -> bool, last: string -> bool)
    requires forall l :: first(l) == IsTranslation(r, l) && last(l) == IsFilter(r, l)
    ensures Ordered(r, lines) <==> OrderedBy(first, last, lines)
  {
  }

  lemma AddLoadKeepsOrder(r: Rules, lines: seq<string>)
    requires Sane(r) && |lines| > 0
    ensures Ordered(r, AddLoad(r, lines)) <==> Ordered(r, lines)
  {
    var n, out := |lines|, AddLoad(r, lines);
    BlankIsPlain(r, "");
    if TrimSpace(lines[n - 1]) == "" {
      BlankIsPlain(r, lines[n - 1]);
    }
    var same := if TrimSpace(lines[n - 1]) == "" then n - 1 else n;
    assert out[..same] == lines[..same];
    if Ordered(r, out) {
      forall i, j | 0 <= i < j < n && IsFilter(r, lines[i])
        ensures !IsTranslation(r, lines[j])
      {
        assert out[i] == lines[i];
        if j < same {
          assert out[j] == lines[j];
        }
      }
    }
    if Ordered(r, lines) {
      forall i, j | 0 <= i < j < |out| && IsFilter(r, out[i])
        ensures !IsTranslation(r, out[j])
      {
        assert lines[i] == out[i];
        if j < same {
          assert out[j] == lines[j];
        }
      }
    }
  }

  lemma PatchedLinesAreFree(r: Rules, lines: seq<string>, at: nat)
    requires Sane(r) && |lines| > 0 && at <= |lines| && FreeOf(lines, '\n')
    ensures FreeOf(PatchedLines(r, lines, at), '\n') && |PatchedLines(r, lines, at)| > 0
  {
    forall l | l in Insert(r, lines, at)
      ensures '\n' !in l
    {
      assert l == r.rdrAnchorLine || l in lines;
    }
  }

  lemma PatchedLinesSplit(r: Rules, conf: string, patched: string, changed: bool) returns (at: nat)
    requires Sane(r) && PatchOf(r, conf, patched, changed)
    ensures IsInsertPoint(r, Split(conf, '\n'), at)
    ensures Split(patched, '\n') == PatchedLines(r, Split(conf, '\n'), at)
  {
    var lines := Split(conf, '\n');
    at :| IsInsertPoint(r, lines, at) && patched == Join(PatchedLines(r, lines, at), '\n');
    SplitIsFree(conf, '\n');
    PatchedLinesAreFree(r, lines, at);
    SplitJoin(PatchedLines(r, lines, at), '\n');
  }

  /** Patching never breaks pf's section order, and never repairs a broken one. */
  lemma PatchKeepsOrder(r: Rules, conf: string, patched: string, changed: bool)
    requires Sane(r) && PatchOf(r, conf, patched, changed)
    ensures Ordered(r, Split(patched, '\n')) <==> Ordered(r, Split(conf, '\n'))
  {
    var lines := Split(conf, '\n');
    var at := PatchedLinesSplit(r, conf, patched, changed);
    InsertKeepsOrder(r, lines, at);
    AddLoadKeepsOrder(r, if HasLine(lines, r.rdrAnchorLine) then lines else Insert(r, lines, at));
  }

  lemma InsertHasLine(r: Rules, lines: seq<string>, at: nat, want: string)
    requires Sane(r) && at <= |lines| && (HasLine(lines, want) || want == r.rdrAnchorLine)
    ensures HasLine(Insert(r, lines, at), want)
  {
    var out := Insert(r, lines, at);
    if HasLine(lines, want) {
      var k :| 0 <= k < |lines| && TrimSpace(lines[k]) == want;
      assert TrimSpace(out[if k < at then k else k + 1]) == want;
    } else {
      assert TrimSpace(out[at]) == want;
    }
  }

  lemma AddLoadHasLine(r: Rules, lines: seq<string>, want: string)
    requires Sane(r) && |lines| > 0 && want != "" && (HasLine(lines, want) || want == r.loadLine)
    ensures HasLine(AddLoad(r, lines), want)
  {
    var out := AddLoad(r, lines);
    if HasLine(lines, want) {
      var k :| 0 <= k < |lines| && TrimSpace(lines[k]) == want;
      assert TrimSpace(out[k]) == want;
    } else {
      assert TrimSpace(out[if TrimSpace(lines[|lines| - 1]) == "" then |lines| - 1 else |lines|]) == want;
    }
  }

  lemma PatchedHasBoth(r: Rules, lines: seq<string>, at: nat)
    requires Sane(r) && |lines| > 0 && at <= |lines|
    ensures HasLine(PatchedLines(r, lines, at), r.rdrAnchorLine)
    ensures HasLine(PatchedLines(r, lines, at), r.loadLine)
  {
    var withRdr := if HasLine(lines, r.rdrAnchorLine) then lines else Insert(r, lines, at);
    if !HasLine(lines, r.rdrAnchorLine) {
      InsertHasLine(r, lines, at, r.rdrAnchorLine);
      if HasLine(lines, r.loadLine) {
        InsertHasLine(r, lines, at, r.loadLine);
      }
    }
    if !HasLine(lines, r.loadLine) {
      AddLoadHasLine(r, withRdr, r.rdrAnchorLine);
      AddLoadHasLine(r, withRdr, r.loadLine);
    }
  }

  /** A second patch changes nothing. */
  lemma PatchTwice(r: Rules, conf: string, once: string, c1: bool, twice: string, c2: bool)
    requires Sane(r) && PatchOf(r, conf, once, c1) && PatchOf(r, once, twice, c2)
    ensures !c2 && twice == once
  {
    var at := PatchedLinesSplit(r, conf, once, c1);
    PatchedHasBoth(r, Split(conf, '\n'), at);
    JoinSplit(once, '\n');
  }

  /** A change is reported exactly if there is one. */
  lemma PatchReportsItsChange(r: Rules, conf: string, patched: string, changed: bool)
    requires Sane(r) && PatchOf(r, conf, patched, changed)
    ensures changed <==> patched != conf
  {
    var lines := Split(conf, '\n');
    var at := PatchedLinesSplit(r, conf, patched, changed);
    PatchedHasBoth(r, lines, at);
    JoinSplit(conf, '\n');
  }

  ghost predicate Untouched(r: Rules, lines: seq<string>) {
    forall i | 0 <= i < |lines| :: !IsVibeLine(r, lines[i])
  }

  /** What a file must look like for uninstall to restore it byte for byte. */
  ghost predicate Restorable(r: Rules, lines: seq<string>)
    requires |lines| > 0
  {
    var last := lines[|lines| - 1];
    && Untouched(r, lines)
    && (last == "" || !Blank(last)
        || forall i | 0 <= i < |lines| :: !IsTranslation(r, lines[i]) && !IsFilter(r, lines[i]))
  }

  lemma JoinKept(r: Rules, lines: seq<string>, conf: string)
    requires FreeOf(lines, '\n')
    ensures Join(Kept(r, lines), '\n') == conf <==>
            Split(conf, '\n') == OrEmptyLine(Kept(r, lines))
  {
    WithoutDrops(lines, VibeLine(r));
    JoinSplit(conf, '\n');
    if Kept(r, lines) != [] {
      SplitJoin(Kept(r, lines), '\n');
    }
  }

  /** Around the two lines added, the patched file is the original one. */
  lemma PatchedShape(r: Rules, lines: seq<string>, at: nat)
    requires Sane(r) && |lines| > 0 && at <= |lines| && Untouched(r, lines)
    ensures var n := |lines|;
            PatchedLines(r, lines, at) == lines[..at] + [r.rdrAnchorLine]
              + (if at < n && Blank(lines[n - 1]) then lines[at..n - 1] + [r.loadLine, ""]
                 else lines[at..] + [r.loadLine])
  {
    var n, withRdr := |lines|, Insert(r, lines, at);
    TrimSpaceEmpty(withRdr[n]);
    assert PatchedLines(r, lines, at) == AddLoad(r, withRdr);
    if at < n {
      assert withRdr[n] == lines[n - 1];
      assert withRdr[..n] == lines[..at] + [r.rdrAnchorLine] + lines[at..n - 1];
    } else {
      assert withRdr[n] == r.rdrAnchorLine;
      assert withRdr == lines[..at] + [r.rdrAnchorLine];
    }
  }

  lemma KeptOfPatched(r: Rules, lines: seq<string>, at: nat)
    requires Sane(r) && |lines| > 0 && at <= |lines| && Untouched(r, lines)
    ensures Kept(r, PatchedLines(r, lines, at)) ==
            if at < |lines| && Blank(lines[|lines| - 1]) then lines[..|lines| - 1] + [""] else lines
  {
    var n := |lines|;
    PatchedShape(r, lines, at);
    if at < n && Blank(lines[n - 1]) {
      KeptLoadAndEmpty(r);
      KeptSandwich(r, lines[..at], lines[at..n - 1], [r.loadLine, ""]);
      assert lines[..n - 1] == lines[..at] + lines[at..n - 1];
    } else {
      KeptLoad(r);
      KeptSandwich(r, lines[..at], lines[at..], [r.loadLine]);
      assert lines == lines[..at] + lines[at..];
    }
  }

  lemma KeptLoad(r: Rules)
    requires Sane(r)
    ensures Kept(r, [r.loadLine]) == []
  {
    WithoutOne(r.loadLine, VibeLine(r));
  }

  lemma KeptLoadAndEmpty(r: Rules)
    requires Sane(r)
    ensures Kept(r, [r.loadLine, ""]) == [""]
  {
    BlankIsPlain(r, "");
    assert [r.loadLine, ""][1..] == [""];
    WithoutNone([""], VibeLine(r));
  }

  lemma KeptSandwich(r: Rules, a: seq<string>, b: seq<string>, tail: seq<string>)
    requires Sane(r) && Untouched(r, a) && Untouched(r, b)
    ensures Kept(r, a + [r.rdrAnchorLine] + (b + tail)) == a + b + Kept(r, tail)
  {
    assert a + [r.rdrAnchorLine] + (b + tail) == a + [r.rdrAnchorLine] + b + tail;
    var head := a + [r.rdrAnchorLine];
    assert Kept(r, head) == a by {
      WithoutConcat(a, [r.rdrAnchorLine], VibeLine(r));
      WithoutNone(a, VibeLine(r));
    }
    assert Kept(r, head + b) == a + b by {
      WithoutConcat(head, b, VibeLine(r));
      WithoutNone(b, VibeLine(r));
    }
    WithoutConcat(head + b, tail, VibeLine(r));
  }

  /** A file with no lines at all still splits into one empty line. */
  function OrEmptyLine(lines: seq<string>): seq<string> {
    if lines == [] then [""] else lines
  }

  lemma RuleFree(r: Rules, lines: seq<string>, at: nat)
    requires Sane(r) && |lines| > 0 && IsInsertPoint(r, lines, at) && Blank(lines[|lines| - 1])
    ensures at == |lines| <==> forall i | 0 <= i < |lines| :: !IsTranslation(r, lines[i]) && !IsFilter(r, lines[i])
  {
    TrimSpaceEmpty(lines[|lines| - 1]);
    BlankIsPlain(r, lines[|lines| - 1]);
  }

  lemma KeptNeverTouches(r: Rules, lines: seq<string>, from: seq<string>)
    requires Sane(r) && OrEmptyLine(Kept(r, from)) == lines
    ensures Untouched(r, lines)
  {
    WithoutDrops(from, VibeLine(r));
    BlankIsPlain(r, "");
  }

  lemma LastLineReplaced(lines: seq<string>, kept: seq<string>, replaced: bool)
    requires |lines| > 0 && kept == if replaced then lines[..|lines| - 1] + [""] else lines
    ensures OrEmptyLine(kept) == lines <==> (replaced ==> lines[|lines| - 1] == "")
  {
    assert lines == lines[..|lines| - 1] + [lines[|lines| - 1]];
    assert replaced ==> kept[|lines| - 1] == "";
  }

  lemma RestorableIff(r: Rules, lines: seq<string>, at: nat)
    requires Sane(r) && |lines| > 0 && IsInsertPoint(r, lines, at) && Untouched(r, lines)
    ensures Restorable(r, lines) <==>
            (at < |lines| && Blank(lines[|lines| - 1]) ==> lines[|lines| - 1] == "")
  {
    if Blank(lines[|lines| - 1]) {
      RuleFree(r, lines, at);
    }
  }

  lemma KeptIsOriginal(r: Rules, lines: seq<string>, at: nat)
    requires Sane(r) && |lines| > 0 && IsInsertPoint(r, lines, at)
    ensures OrEmptyLine(Kept(r, PatchedLines(r, lines, at))) == lines <==> Restorable(r, lines)
  {
    if Untouched(r, lines) {
      KeptOfPatched(r, lines, at);
      RestorableIff(r, lines, at);
      LastLineReplaced(lines, Kept(r, PatchedLines(r, lines, at)), at < |lines| && Blank(lines[|lines| - 1]));
    } else if OrEmptyLine(Kept(r, PatchedLines(r, lines, at))) == lines {
      KeptNeverTouches(r, lines, PatchedLines(r, lines, at));
    }
  }

  /** Uninstall restores the file exactly when it held none of vibe's lines and either its last
      line is empty or has ink, or it has no rule lines at all. A last line of spaces is lost. */
  lemma StripUndoesPatch(r: Rules, conf: string, patched: string, changed: bool)
    requires Sane(r) && PatchOf(r, conf, patched, changed)
    ensures Join(Kept(r, Split(patched, '\n')), '\n') == conf <==> Restorable(r, Split(conf, '\n'))
  {
    var at := PatchedLinesSplit(r, conf, patched, changed);
    SplitIsFree(patched, '\n');
    JoinKept(r, Split(patched, '\n'), conf);
    KeptIsOriginal(r, Split(conf, '\n'), at);
  }

  /** The case that fails: a rule, then a last line holding one space. */
  lemma SpacesAreLost()
    ensures !Restorable(PF, Split("pass\n ", '\n'))
  {
    SplitPrefix("pass", " ", '\n');
    SplitAtom(" ", '\n');
    assert "pass" + ['\n'] + " " == "pass\n ";
    var lines := Split("pass\n ", '\n');
    TrimSolid("pass");
    assert TrimSpace(lines[0]) == PF.filters[1];
    assert IsFilter(PF, lines[0]);
  }
}
