/** The helpers the seed data uses to write addon descriptions and icon paths:
    `trim` compacts runs of spaces and tabs and strips the edges, and `icon`
    places an icon name under the addon icon directory. */
module SeedTools {
  import opened Wrappers
  import Text

  /** The characters the pattern `[ \t]` matches. */
  predicate IsBlank(c: char) {
    c == ' ' || c == '\t'
  }

  /** The characters `String.prototype.trim` strips: white space and line
      terminators. */
  predicate IsJsSpace(c: char) {
    || c == '\t' || c == '\n' || c == '\U{000B}' || c == '\U{000C}' || c == '\r' || c == ' '
    || c == '\U{00A0}' || c == '\U{1680}' || ('\U{2000}' <= c <= '\U{200A}')
    || c == '\U{2028}' || c == '\U{2029}' || c == '\U{202F}' || c == '\U{205F}'
    || c == '\U{3000}' || c == '\U{FEFF}'
  }

  predicate NoDoubleSpace(s: string) {
    forall i :: 0 <= i < |s| - 1 ==> !(s[i] == ' ' && s[i + 1] == ' ')
  }

  /** Neither end of the text is white space. */
  predicate TrimmedEdges(s: string) {
    s == [] || (!IsJsSpace(s[0]) && !IsJsSpace(s[|s| - 1]))
  }

  /** The text after the run of spaces and tabs it starts with. */
  function DropBlanks(s: string): (r: string)
    ensures |r| <= |s| && r == s[|s| - |r|..]
    ensures forall i :: 0 <= i < |s| - |r| ==> IsBlank(s[i])
    ensures r == [] || !IsBlank(r[0])
  {
    if s == [] || !IsBlank(s[0]) then s else DropBlanks(s[1..])
  }

  /** `text.replace(/[ \t]+/g, ' ')`: every maximal run of spaces and tabs
      becomes one space. */
  function Collapse(s: string): (r: string)
    ensures '\t' !in r
    ensures NoDoubleSpace(r)
    ensures r == [] <==> s == []
    ensures r != [] ==> (r[0] == ' ' <==> IsBlank(s[0]))
    ensures r != [] && !IsBlank(s[0]) ==> r[0] == s[0]
    ensures s != [] && !IsBlank(s[|s| - 1]) ==> r[|r| - 1] == s[|s| - 1]
    decreases |s|
  {
    if s == [] then []
    else if IsBlank(s[0]) then
      var rest := DropBlanks(s);
      assert rest == s[|s| - |rest|..];
      [' '] + Collapse(rest)
    else [s[0]] + Collapse(s[1..])
  }

  function TrimStart(s: string): (r: string)
    ensures |r| <= |s| && r == s[|s| - |r|..]
    ensures forall i :: 0 <= i < |s| - |r| ==> IsJsSpace(s[i])
    ensures r == [] || !IsJsSpace(r[0])
  {
    if s == [] || !IsJsSpace(s[0]) then s else TrimStart(s[1..])
  }

  function TrimEnd(s: string): (r: string)
    ensures |r| <= |s| && r == s[..|r|]
    ensures forall i :: |r| <= i < |s| ==> IsJsSpace(s[i])
    ensures r == [] || !IsJsSpace(r[|r| - 1])
  {
    if s == [] || !IsJsSpace(s[|s| - 1]) then s else TrimEnd(s[..|s| - 1])
  }

  /** `trim(text)`: runs of spaces and tabs collapsed, then the edges
      stripped. No tab and no two adjacent spaces remain, and neither end is
      white space. */
  function Trim(s: string): (r: string)
    ensures '\t' !in r
    ensures NoDoubleSpace(r)
    ensures TrimmedEdges(r)
  {
    var c := Collapse(s);
    StripCompact(c);
    TrimEnd(TrimStart(c))
  }

  /** Stripping the edges of compact text leaves compact text with no white
      space at either end. */
  lemma StripCompact(c: string)
    requires '\t' !in c && NoDoubleSpace(c)
    ensures var r := TrimEnd(TrimStart(c));
      '\t' !in r && NoDoubleSpace(r) && TrimmedEdges(r)
  {
    var a := TrimStart(c);
    CompactSlice(c, |c| - |a|, |c|);
    var b := TrimEnd(a);
    CompactSlice(a, 0, |b|);
    if b != [] {
      assert b[0] == a[0];
    }
  }

  /** A slice of compact text is compact. */
  lemma CompactSlice(s: string, i: nat, j: nat)
    requires i <= j <= |s|
    requires '\t' !in s && NoDoubleSpace(s)
    ensures '\t' !in s[i..j] && NoDoubleSpace(s[i..j])
  {
    forall k | 0 <= k < j - i - 1
      ensures !(s[i..j][k] == ' ' && s[i..j][k + 1] == ' ')
    {
      assert s[i..j][k] == s[i + k] && s[i..j][k + 1] == s[i + k + 1];
    }
  }

  /** Dropping a leading run of spaces and tabs drops no newline. */
  lemma DropBlanksKeepsNewlines(s: string)
    ensures multiset(DropBlanks(s))['\n'] == multiset(s)['\n']
  {
    var rest := DropBlanks(s);
    var run := s[..|s| - |rest|];
    assert s == run + rest;
    assert '\n' !in run by {
      forall k | 0 <= k < |run| ensures run[k] != '\n' {
        assert IsBlank(s[k]);
      }
    }
    assert multiset(s) == multiset(run) + multiset(rest);
  }

  /** Collapsing keeps every newline. */
  lemma {:induction false} CollapseKeepsNewlines(s: string)
    ensures multiset(Collapse(s))['\n'] == multiset(s)['\n']
    decreases |s|
  {
    if s != [] {
      if IsBlank(s[0]) {
        var rest := DropBlanks(s);
        var r := Collapse(rest);
        calc {
          multiset(Collapse(s))['\n'];
          multiset([' '] + r)['\n'];
          { NewlinesConcat([' '], r); }
          multiset([' '])['\n'] + multiset(r)['\n'];
          { CollapseKeepsNewlines(rest); }
          multiset(rest)['\n'];
          { DropBlanksKeepsNewlines(s); }
          multiset(s)['\n'];
        }
      } else {
        var r := Collapse(s[1..]);
        calc {
          multiset(Collapse(s))['\n'];
          multiset([s[0]] + r)['\n'];
          { NewlinesConcat([s[0]], r); }
          multiset([s[0]])['\n'] + multiset(r)['\n'];
          { CollapseKeepsNewlines(s[1..]); }
          multiset([s[0]])['\n'] + multiset(s[1..])['\n'];
          { NewlinesConcat([s[0]], s[1..]); assert s == [s[0]] + s[1..]; }
          multiset(s)['\n'];
        }
      }
    }
  }

  lemma NewlinesConcat(a: string, b: string)
    ensures multiset(a + b)['\n'] == multiset(a)['\n'] + multiset(b)['\n']
  {
    assert multiset(a + b) == multiset(a) + multiset(b);
  }

  /** The characters of the text other than spaces and tabs, in order. */
  function NonBlanks(s: string): string {
    if s == [] then [] else (if IsBlank(s[0]) then [] else [s[0]]) + NonBlanks(s[1..])
  }

  /** The characters of the text other than white space, in order. */
  function Visible(s: string): string {
    if s == [] then [] else (if IsJsSpace(s[0]) then [] else [s[0]]) + Visible(s[1..])
  }

  lemma {:induction false} NonBlanksConcat(a: string, b: string)
    ensures NonBlanks(a + b) == NonBlanks(a) + NonBlanks(b)
    decreases |a|
  {
    if a == [] {
      assert a + b == b;
    } else {
      assert (a + b)[0] == a[0] && (a + b)[1..] == a[1..] + b;
      NonBlanksConcat(a[1..], b);
    }
  }

  lemma {:induction false} VisibleConcat(a: string, b: string)
    ensures Visible(a + b) == Visible(a) + Visible(b)
    decreases |a|
  {
    if a == [] {
      assert a + b == b;
    } else {
      assert (a + b)[0] == a[0] && (a + b)[1..] == a[1..] + b;
      VisibleConcat(a[1..], b);
    }
  }

  /** Spaces and tabs are white space, so dropping them first changes
      nothing about the visible characters. */
  lemma {:induction false} VisibleOfNonBlanks(s: string)
    ensures Visible(NonBlanks(s)) == Visible(s)
    decreases |s|
  {
    if s != [] {
      VisibleOfNonBlanks(s[1..]);
      VisibleConcat(if IsBlank(s[0]) then [] else [s[0]], NonBlanks(s[1..]));
    }
  }

  /** Text made only of white space has no visible characters. */
  lemma {:induction false} VisibleOfSpaces(s: string)
    requires forall i :: 0 <= i < |s| ==> IsJsSpace(s[i])
    ensures Visible(s) == []
    decreases |s|
  {
    if s != [] {
      VisibleOfSpaces(s[1..]);
    }
  }

  /** Collapsing keeps every character other than a space or a tab, in order:
      only the runs of blanks change. */
  lemma {:induction false} CollapseKeepsText(s: string)
    ensures NonBlanks(Collapse(s)) == NonBlanks(s)
    decreases |s|
  {
    if s != [] {
      if IsBlank(s[0]) {
        var rest := DropBlanks(s);
        var run := s[..|s| - |rest|];
        assert s == run + rest;
        assert NonBlanks(run) == [] by {
          BlankRun(run);
        }
        NonBlanksConcat(run, rest);
        CollapseKeepsText(rest);
        NonBlanksConcat([' '], Collapse(rest));
      } else {
        CollapseKeepsText(s[1..]);
        NonBlanksConcat([s[0]], Collapse(s[1..]));
      }
    }
  }

  lemma {:induction false} BlankRun(s: string)
    requires forall i :: 0 <= i < |s| ==> IsBlank(s[i])
    ensures NonBlanks(s) == []
    decreases |s|
  {
    if s != [] {
      BlankRun(s[1..]);
    }
  }

  /** Dropping a leading run of blanks from `a + b`. */
  lemma {:induction false} DropBlanksConcat(a: string, b: string)
    ensures DropBlanks(a) != [] ==> DropBlanks(a + b) == DropBlanks(a) + b
    ensures DropBlanks(a) == [] && (b == [] || !IsBlank(b[0])) ==> DropBlanks(a + b) == b
    decreases |a|
  {
    if a != [] {
      assert (a + b)[0] == a[0] && (a + b)[1..] == a[1..] + b;
      DropBlanksConcat(a[1..], b);
    }
  }

  /** The collapse of two pieces that do not meet inside a run of blanks is
      the collapse of each piece. */
  lemma {:induction false} CollapseConcat(a: string, b: string)
    requires a == [] || b == [] || !IsBlank(a[|a| - 1]) || !IsBlank(b[0])
    ensures Collapse(a + b) == Collapse(a) + Collapse(b)
    decreases |a|
  {
    if a == [] {
      assert a + b == b;
    } else if !IsBlank(a[0]) {
      calc {
        Collapse(a + b);
        { TailConcat(a, b); CollapseVisibleStart(a + b); }
        [a[0]] + Collapse(a[1..] + b);
        { CollapseConcat(a[1..], b); }
        [a[0]] + (Collapse(a[1..]) + Collapse(b));
        { Regroup([a[0]], Collapse(a[1..]), Collapse(b)); }
        ([a[0]] + Collapse(a[1..])) + Collapse(b);
        { CollapseVisibleStart(a); }
        Collapse(a) + Collapse(b);
      }
    } else {
      var d := DropBlanks(a);
      DropBlanksShorter(a);
      if d == [] {
        calc {
          Collapse(a + b);
          { CollapseBlankStart(a + b); BlankRunThen(a, b); }
          [' '] + Collapse(b);
          { CollapseBlankStart(a); assert Collapse(d) == []; assert [' '] + [] == [' ']; }
          Collapse(a) + Collapse(b);
        }
      } else {
        calc {
          Collapse(a + b);
          { CollapseBlankStart(a + b); DropBlanksConcat(a, b); }
          [' '] + Collapse(d + b);
          { LastKept(a); CollapseConcat(d, b); }
          [' '] + (Collapse(d) + Collapse(b));
          { Regroup([' '], Collapse(d), Collapse(b)); }
          ([' '] + Collapse(d)) + Collapse(b);
          { CollapseBlankStart(a); }
          Collapse(a) + Collapse(b);
        }
      }
    }
  }

  lemma TailConcat(a: string, b: string)
    requires a != []
    ensures (a + b)[0] == a[0] && (a + b)[1..] == a[1..] + b
  {
  }

  lemma CollapseVisibleStart(s: string)
    requires s != [] && !IsBlank(s[0])
    ensures Collapse(s) == [s[0]] + Collapse(s[1..])
  {
  }

  lemma DropBlanksShorter(a: string)
    requires a != [] && IsBlank(a[0])
    ensures |DropBlanks(a)| < |a|
  {
    if |DropBlanks(a)| == |a| {
      assert false;
    }
  }

  lemma LastKept(a: string)
    requires DropBlanks(a) != []
    ensures DropBlanks(a)[|DropBlanks(a)| - 1] == a[|a| - 1]
  {
  }

  lemma Regroup(x: string, y: string, z: string)
    ensures x + (y + z) == (x + y) + z
  {
  }

  lemma CollapseBlankStart(s: string)
    requires s != [] && IsBlank(s[0])
    ensures Collapse(s) == [' '] + Collapse(DropBlanks(s))
  {
  }

  /** When `a` is a run of blanks and `b` does not continue it, dropping the
      run from `a + b` leaves `b`. */
  lemma BlankRunThen(a: string, b: string)
    requires a != [] && DropBlanks(a) == []
    requires b == [] || !IsBlank(a[|a| - 1]) || !IsBlank(b[0])
    ensures DropBlanks(a + b) == b
  {
    DropBlanksConcat(a, b);
    assert IsBlank(a[|a| - 1]);
  }

  /** The collapse of white space is white space. */
  lemma {:induction false} CollapseSpaces(s: string)
    requires forall i :: 0 <= i < |s| ==> IsJsSpace(s[i])
    ensures forall i :: 0 <= i < |Collapse(s)| ==> IsJsSpace(Collapse(s)[i])
    decreases |s|
  {
    if s != [] {
      if IsBlank(s[0]) {
        var rest := DropBlanks(s);
        CollapseSpaces(rest);
        assert Collapse(s) == [' '] + Collapse(rest);
      } else {
        CollapseSpaces(s[1..]);
        assert Collapse(s) == [s[0]] + Collapse(s[1..]);
      }
    }
  }

  /** Stripping a white-space prefix off text that starts visibly. */
  lemma {:induction false} TrimStartPrefix(x: string, y: string)
    requires forall i :: 0 <= i < |x| ==> IsJsSpace(x[i])
    requires y == [] || !IsJsSpace(y[0])
    ensures TrimStart(x + y) == y
    decreases |x|
  {
    if x == [] {
      assert x + y == y;
    } else {
      assert (x + y)[0] == x[0] && (x + y)[1..] == x[1..] + y;
      TrimStartPrefix(x[1..], y);
    }
  }

  /** Stripping a white-space suffix off text that ends visibly. */
  lemma {:induction false} TrimEndSuffix(y: string, z: string)
    requires forall i :: 0 <= i < |z| ==> IsJsSpace(z[i])
    requires y == [] || !IsJsSpace(y[|y| - 1])
    ensures TrimEnd(y + z) == y
    decreases |z|
  {
    if z == [] {
      assert y + z == y;
    } else {
      var w := y + z;
      assert w[|w| - 1] == z[|z| - 1];
      assert w[..|w| - 1] == y + z[..|z| - 1];
      TrimEndSuffix(y, z[..|z| - 1]);
    }
  }

  /** The text split at its first and last visible characters: leading white
      space, the core, trailing white space. */
  lemma Edges(s: string) returns (pre: string, post: string)
    ensures s == pre + (TrimEnd(TrimStart(s)) + post)
    ensures forall i :: 0 <= i < |pre| ==> IsJsSpace(pre[i])
    ensures forall i :: 0 <= i < |post| ==> IsJsSpace(post[i])
  {
    pre := StartSplit(s);
    post := EndSplit(TrimStart(s));
  }

  lemma StartSplit(s: string) returns (pre: string)
    ensures s == pre + TrimStart(s)
    ensures forall i :: 0 <= i < |pre| ==> IsJsSpace(pre[i])
  {
    pre := SpacesBefore(s, TrimStart(s));
  }

  lemma EndSplit(a: string) returns (post: string)
    ensures a == TrimEnd(a) + post
    ensures forall i :: 0 <= i < |post| ==> IsJsSpace(post[i])
  {
    post := SpacesAfter(a, TrimEnd(a));
  }

  /** A suffix of `s` preceded only by white space. */
  lemma SpacesBefore(s: string, rest: string) returns (pre: string)
    requires |rest| <= |s| && rest == s[|s| - |rest|..]
    requires forall i :: 0 <= i < |s| - |rest| ==> IsJsSpace(s[i])
    ensures s == pre + rest
    ensures forall i :: 0 <= i < |pre| ==> IsJsSpace(pre[i])
  {
    pre := s[..|s| - |rest|];
    forall i | 0 <= i < |pre| ensures IsJsSpace(pre[i]) {
      assert pre[i] == s[i];
    }
  }

  /** A prefix of `s` followed only by white space. */
  lemma SpacesAfter(s: string, init: string) returns (post: string)
    requires |init| <= |s| && init == s[..|init|]
    requires forall i :: |init| <= i < |s| ==> IsJsSpace(s[i])
    ensures s == init + post
    ensures forall i :: 0 <= i < |post| ==> IsJsSpace(post[i])
  {
    post := s[|init|..];
    forall i | 0 <= i < |post| ensures IsJsSpace(post[i]) {
      assert post[i] == s[|init| + i];
    }
  }

  /** Text made of two white-space pieces is white space. */
  lemma SpacesConcat(x: string, y: string)
    requires forall i :: 0 <= i < |x| ==> IsJsSpace(x[i])
    requires forall i :: 0 <= i < |y| ==> IsJsSpace(y[i])
    ensures forall i :: 0 <= i < |x + y| ==> IsJsSpace((x + y)[i])
  {
  }

  /** `trim` is the collapse of the text between its first and last visible
      characters: the white space at the edges goes entirely, and only the
      runs of blanks inside are compacted. */
  lemma TrimIsCollapsedCore(s: string)
    ensures Trim(s) == Collapse(TrimEnd(TrimStart(s)))
  {
    var core := TrimEnd(TrimStart(s));
    var pre, post := Edges(s);
    assert Trim(s) == TrimEnd(TrimStart(Collapse(s)));
    if core == [] {
      assert core + post == post;
      SpacesConcat(pre, post);
      StripSpaces(pre + post);
    } else {
      CoreEdges(s);
      StripAroundCore(pre, core, post);
    }
  }

  /** White space collapses and strips to nothing. */
  lemma StripSpaces(s: string)
    requires forall i :: 0 <= i < |s| ==> IsJsSpace(s[i])
    ensures TrimEnd(TrimStart(Collapse(s))) == [] == Collapse([])
  {
    CollapseSpaces(s);
    TrimStartPrefix(Collapse(s), []);
    assert Collapse(s) + [] == Collapse(s);
  }

  /** Collapsing white space, a core with visible ends and white space, then
      stripping the edges, leaves the collapsed core. */
  lemma StripAroundCore(pre: string, core: string, post: string)
    requires forall i :: 0 <= i < |pre| ==> IsJsSpace(pre[i])
    requires forall i :: 0 <= i < |post| ==> IsJsSpace(post[i])
    requires core != [] && !IsBlank(core[0]) && !IsBlank(core[|core| - 1])
    requires !IsJsSpace(Collapse(core)[0]) && !IsJsSpace(Collapse(core)[|Collapse(core)| - 1])
    ensures TrimEnd(TrimStart(Collapse(pre + (core + post)))) == Collapse(core)
  {
    var cc := Collapse(core);
    calc {
      TrimEnd(TrimStart(Collapse(pre + (core + post))));
      { assert (core + post)[0] == core[0]; CollapseConcat(pre, core + post); }
      TrimEnd(TrimStart(Collapse(pre) + Collapse(core + post)));
      { CollapseConcat(core, post); }
      TrimEnd(TrimStart(Collapse(pre) + (cc + Collapse(post))));
      { CollapseSpaces(pre); TrimStartPrefix(Collapse(pre), cc + Collapse(post)); }
      TrimEnd(cc + Collapse(post));
      { CollapseSpaces(post); TrimEndSuffix(cc, Collapse(post)); }
      cc;
    }
  }

  /** A non-empty core starts and ends with a visible character, and so does
      its collapse. */
  lemma CoreEdges(s: string)
    requires TrimEnd(TrimStart(s)) != []
    ensures var core := TrimEnd(TrimStart(s));
      !IsBlank(core[0]) && !IsBlank(core[|core| - 1]) &&
      !IsJsSpace(Collapse(core)[0]) && !IsJsSpace(Collapse(core)[|Collapse(core)| - 1])
  {
    var a := TrimStart(s);
    CoreEnds(a);
    VisibleEnds(TrimEnd(a));
  }

  /** Stripping the end of text that starts visibly leaves text that starts
      and ends visibly. */
  lemma CoreEnds(a: string)
    requires a == [] || !IsJsSpace(a[0])
    ensures var core := TrimEnd(a);
      core == [] || (!IsJsSpace(core[0]) && !IsJsSpace(core[|core| - 1]))
  {
    var core := TrimEnd(a);
    if core != [] {
      assert core[0] == a[0];
    }
  }

  /** Text whose ends are not white space keeps its ends through the
      collapse. */
  lemma VisibleEnds(core: string)
    requires core != [] && !IsJsSpace(core[0]) && !IsJsSpace(core[|core| - 1])
    ensures !IsBlank(core[0]) && !IsBlank(core[|core| - 1])
    ensures !IsJsSpace(Collapse(core)[0]) && !IsJsSpace(Collapse(core)[|Collapse(core)| - 1])
  {
  }

  /** `trim` keeps every visible character of the text, in order. */
  lemma TrimKeepsText(s: string)
    ensures Visible(Trim(s)) == Visible(s)
  {
    var core := TrimEnd(TrimStart(s));
    var pre, post := Edges(s);
    assert s == pre + (core + post);
    VisibleConcat(pre, core + post);
    VisibleConcat(core, post);
    VisibleOfSpaces(pre);
    VisibleOfSpaces(post);
    TrimIsCollapsedCore(s);
    CollapseKeepsText(core);
    VisibleOfNonBlanks(Collapse(core));
    VisibleOfNonBlanks(core);
  }

  /** Every newline between the first and the last visible character
      survives `trim`; for text with no white space at its edges, that is
      every newline. */
  lemma TrimKeepsNewlines(s: string)
    ensures multiset(Trim(s))['\n'] == multiset(TrimEnd(TrimStart(s)))['\n']
    ensures TrimmedEdges(s) ==> multiset(Trim(s))['\n'] == multiset(s)['\n']
  {
    TrimIsCollapsedCore(s);
    CollapseKeepsNewlines(TrimEnd(TrimStart(s)));
  }

  /** Text without tabs and double spaces is left alone by the collapse. */
  lemma {:induction false} CollapseIdentity(s: string)
    requires '\t' !in s && NoDoubleSpace(s)
    ensures Collapse(s) == s
    decreases |s|
  {
    if s != [] {
      var t := s[1..];
      assert NoDoubleSpace(t) by {
        forall i | 0 <= i < |t| - 1 ensures !(t[i] == ' ' && t[i + 1] == ' ') {
          assert t[i] == s[i + 1] && t[i + 1] == s[i + 2];
        }
      }
      CollapseIdentity(t);
      if IsBlank(s[0]) {
        assert t == [] || !IsBlank(t[0]);
        assert DropBlanks(s) == t;
      }
      assert s == [s[0]] + t;
    }
  }

  /** Text that is already compact is unchanged. */
  lemma TrimFixedPoint(s: string)
    requires '\t' !in s && NoDoubleSpace(s) && TrimmedEdges(s)
    ensures Trim(s) == s
  {
    CollapseIdentity(s);
  }

  /** Trimming twice is trimming once. */
  lemma TrimIdempotent(s: string)
    ensures Trim(Trim(s)) == Trim(s)
  {
    TrimFixedPoint(Trim(s));
  }

  const IconDir: string := "/icons/addons/"

  /** `icon(text)`. */
  function Icon(name: string): (r: string)
    ensures Text.StartsWith(r, IconDir) && r[|IconDir|..] == name
  {
    IconDir + name
  }

  /** The icon name a path under the icon directory stands for. */
  function IconName(path: string): (r: Option<string>)
    ensures r.Some? <==> Text.StartsWith(path, IconDir)
  {
    if Text.StartsWith(path, IconDir) then Some(path[|IconDir|..]) else None
  }

  /** `icon` and `IconName` are inverse. */
  lemma IconRoundTrip(name: string, path: string)
    ensures IconName(Icon(name)) == Some(name)
    ensures IconName(path).Some? ==> Icon(IconName(path).value) == path
  {
    if IconName(path).Some? {
      assert path == path[..|IconDir|] + path[|IconDir|..];
    }
  }
}
