/** The build plugin that turns the overlay templates into one script and one
    page per addon by textual replacement of placeholder keys. */
module SvelteOverlay {
  import opened Wrappers
  import Text

  /** The replacement table in `Object.keys` order. */
  type Table = seq<(string, string)>

  /** The plugin's options: the template page to copy, the name to give the
      copy, and the replacements. */
  datatype OverlayConfig = OverlayConfig(output: string, staticFile: string, replace: Table)

  /** A file handed to the bundler through `emitFile`. */
  datatype Asset = Asset(fileName: string, source: string)

  /** Index of the first key, in table order, that `s` starts with, or -1:
      the alternative the pattern `k1|k2|...` takes at this position. */
  function FirstKeyAt(table: Table, s: string): (r: int)
    ensures -1 <= r < |table|
    ensures r >= 0 ==> Text.StartsWith(s, table[r].0) && forall j :: 0 <= j < r ==> !Text.StartsWith(s, table[j].0)
    ensures r == -1 <==> forall j :: 0 <= j < |table| ==> !Text.StartsWith(s, table[j].0)
  {
    if table == [] then -1
    else if Text.StartsWith(s, table[0].0) then 0
    else
      var r := FirstKeyAt(table[1..], s);
      if r == -1 then -1 else r + 1
  }

  /** The global replace from the current position on: where a key matches,
      its value is emitted and the scan resumes after the matched text (after
      the next character for an empty key, which also matches at the end);
      elsewhere the character is copied. */
  function Scan(table: Table, s: string): string
    decreases |s|
  {
    var j := FirstKeyAt(table, s);
    if j == -1 then (if s == [] then [] else [s[0]] + Scan(table, s[1..]))
    else if table[j].0 == [] then table[j].1 + (if s == [] then [] else [s[0]] + Scan(table, s[1..]))
    else table[j].1 + Scan(table, s[|table[j].0|..])
  }

  /** `doReplacements(config, inputString)`. With no keys the pattern is
      empty, matches everywhere, and the looked-up value is `undefined`. */
  function DoReplacements(table: Table, s: string): string {
    Scan(if table == [] then [("", "undefined")] else table, s)
  }

  /** Text in which no key occurs is returned unchanged. */
  lemma {:induction false} NoKeyUnchanged(table: Table, s: string)
    requires table != []
    requires forall j :: 0 <= j < |table| ==> !Text.Includes(s, table[j].0)
    ensures DoReplacements(table, s) == s
    decreases |s|
  {
    assert forall j :: 0 <= j < |table| ==> !Text.StartsWith(s[0..], table[j].0);
    assert s[0..] == s;
    if s != [] {
      forall j | 0 <= j < |table|
        ensures !Text.Includes(s[1..], table[j].0)
      {
      }
      NoKeyUnchanged(table, s[1..]);
    }
  }

  /** Where a non-empty key matches, its value is emitted and the scan goes
      on after the matched text in the input: the inserted value is never
      scanned again, whatever keys it contains. */
  lemma NotRescanned(table: Table, s: string)
    requires table != []
    requires FirstKeyAt(table, s) != -1 && table[FirstKeyAt(table, s)].0 != ""
    ensures var j := FirstKeyAt(table, s);
      DoReplacements(table, s) == table[j].1 + DoReplacements(table, s[|table[j].0|..])
  {
  }

  /** Where several keys match at one position, the earliest key in table
      order wins, even when a later one is longer. */
  lemma EarlierKeyWins(table: Table, s: string, i: nat)
    requires i < |table| && table[i].0 != "" && Text.StartsWith(s, table[i].0)
    requires forall j :: 0 <= j < i ==> !Text.StartsWith(s, table[j].0)
    ensures DoReplacements(table, s) == table[i].1 + DoReplacements(table, s[|table[i].0|..])
  {
    assert FirstKeyAt(table, s) == i;
    NotRescanned(table, s);
  }

  /** No key occurrence that starts inside `a` reaches into `b`. */
  predicate NoCrossing(table: Table, a: string, b: string) {
    forall i, j :: 0 <= i < |a| && 0 <= j < |table| && Text.StartsWith((a + b)[i..], table[j].0) ==>
      i + |table[j].0| <= |a|
  }

  predicate NonEmptyKeys(table: Table) {
    table != [] && forall j :: 0 <= j < |table| ==> table[j].0 != ""
  }

  /** What the scan emits at the start of `s`, and how far it then moves. */
  function Emitted(table: Table, s: string): string
    requires s != []
  {
    var j := FirstKeyAt(table, s);
    if j == -1 then [s[0]] else table[j].1
  }

  function Advance(table: Table, s: string): nat
    requires s != []
  {
    var j := FirstKeyAt(table, s);
    if j == -1 then 1 else |table[j].0|
  }

  /** One step of the scan over non-empty text with non-empty keys. */
  lemma ScanStep(table: Table, s: string)
    requires NonEmptyKeys(table) && s != []
    ensures Advance(table, s) <= |s|
    ensures DoReplacements(table, s) == Emitted(table, s) + DoReplacements(table, s[Advance(table, s)..])
  {
  }

  /** The replacement is one pass over the text: when no key occurrence
      crosses from `a` into `b`, replacing in `a + b` is replacing in `a`
      followed by replacing in `b`. */
  lemma {:induction false} ReplaceConcat(table: Table, a: string, b: string)
    requires NonEmptyKeys(table) && NoCrossing(table, a, b)
    ensures DoReplacements(table, a + b) == DoReplacements(table, a) + DoReplacements(table, b)
    decreases |a|
  {
    if a == [] {
      ReplaceEmptyPrefix(table, b);
    } else {
      AdvanceWithin(table, a, b);
      var m := Advance(table, a);
      ConcatStep(table, a, b);
      NoCrossingShift(table, a, b, m);
      ReplaceConcat(table, a[m..], b);
      ScanStep(table, a);
      Reassemble(DoReplacements(table, a + b), DoReplacements(table, a), Emitted(table, a),
        DoReplacements(table, a[m..]), DoReplacements(table, b));
    }
  }

  /** Replacing in the empty text gives the empty text. */
  lemma ReplaceEmptyPrefix(table: Table, b: string)
    requires NonEmptyKeys(table)
    ensures DoReplacements(table, [] + b) == DoReplacements(table, []) + DoReplacements(table, b)
  {
    assert [] + b == b;
    assert FirstKeyAt(table, []) == -1;
  }

  lemma Reassemble(whole: string, first: string, e: string, x: string, y: string)
    requires whole == e + (x + y) && first == e + x
    ensures whole == first + y
  {
  }

  /** The first step of the scan over `a + b` is the first step over `a`,
      followed by the rest of `a` and then `b`, when the same key is taken at
      the start of both and its match lies within `a`. */
  lemma ConcatStep(table: Table, a: string, b: string)
    requires NonEmptyKeys(table) && a != []
    requires FirstKeyAt(table, a + b) == FirstKeyAt(table, a) && Advance(table, a) <= |a|
    ensures DoReplacements(table, a + b) == Emitted(table, a) + DoReplacements(table, a[Advance(table, a)..] + b)
  {
    var m := Advance(table, a);
    ScanStep(table, a + b);
    assert (a + b)[0] == a[0];
    assert Emitted(table, a + b) == Emitted(table, a);
    assert Advance(table, a + b) == m;
    assert (a + b)[m..] == a[m..] + b;
  }

  /** Without crossing occurrences, the key taken at the start of `a + b` is
      the one taken at the start of `a`, and its match lies within `a`. */
  lemma AdvanceWithin(table: Table, a: string, b: string)
    requires NonEmptyKeys(table) && a != [] && NoCrossing(table, a, b)
    ensures FirstKeyAt(table, a + b) == FirstKeyAt(table, a) && Advance(table, a) <= |a|
  {
    FirstKeySame(table, a, b);
    var j := FirstKeyAt(table, a);
    if j != -1 {
      assert Text.StartsWith((a + b)[0..], table[j].0);
    }
  }

  /** At the start of `a` the same key is taken in `a + b` as in `a`. */
  lemma FirstKeySame(table: Table, a: string, b: string)
    requires a != [] && NoCrossing(table, a, b)
    ensures FirstKeyAt(table, a + b) == FirstKeyAt(table, a)
  {
    assert (a + b)[0..] == a + b;
    forall j | 0 <= j < |table|
      ensures Text.StartsWith(a + b, table[j].0) <==> Text.StartsWith(a, table[j].0)
    {
      var k := table[j].0;
      if Text.StartsWith(a + b, k) {
        assert |k| <= |a|;
        assert (a + b)[..|k|] == a[..|k|];
      }
      if Text.StartsWith(a, k) {
        assert (a + b)[..|k|] == a[..|k|];
      }
    }
  }

  /** Dropping a prefix of `a` keeps occurrences from crossing into `b`. */
  lemma NoCrossingShift(table: Table, a: string, b: string, m: nat)
    requires m <= |a| && NoCrossing(table, a, b)
    ensures NoCrossing(table, a[m..], b)
  {
    forall i, j | 0 <= i < |a[m..]| && 0 <= j < |table| && Text.StartsWith((a[m..] + b)[i..], table[j].0)
      ensures i + |table[j].0| <= |a[m..]|
    {
      assert (a[m..] + b)[i..] == (a + b)[m + i..];
    }
  }

  const Undefined: string := "undefined"

  /** With an empty table the pattern is empty and matches at every
      position, the end included, and the looked-up value is `undefined`:
      `undefined` is inserted before every character and once at the end. */
  lemma {:induction false} EmptyTableInsertsUndefined(s: string)
    ensures |DoReplacements([], s)| == 10 * |s| + 9
    ensures forall p :: 0 <= p < |DoReplacements([], s)| ==>
      DoReplacements([], s)[p] == if p % 10 == 9 then s[p / 10] else Undefined[p % 10]
    decreases |s|
  {
    var r := DoReplacements([], s);
    assert Text.StartsWith(s, "");
    if s == [] {
      assert r == Undefined;
    } else {
      var r' := DoReplacements([], s[1..]);
      EmptyTableInsertsUndefined(s[1..]);
      assert r == Undefined + [s[0]] + r';
      forall p | 0 <= p < |r|
        ensures r[p] == if p % 10 == 9 then s[p / 10] else Undefined[p % 10]
      {
        if p >= 10 {
          assert r[p] == r'[p - 10];
          assert (p - 10) % 10 == p % 10 && (p - 10) / 10 == p / 10 - 1;
        }
      }
    }
  }

  const TemplateDir: string := "overlays/template/"

  /** The template page the build configuration hands to the plugin,
      `src/overlays/template/overlay.html`. */
  const TemplatePage: string := "src/" + TemplateDir + "overlay.html"

  predicate IsLineTerminator(c: char) {
    c == '\n' || c == '\r' || c == '\U{2028}' || c == '\U{2029}'
  }

  /** `id.match(/overlays\/template\/.*$/)`: the directory occurs with no line
      terminator after it. */
  predicate IsTemplateId(id: string) {
    exists i :: 0 <= i <= |id| && Text.StartsWith(id[i..], TemplateDir) &&
      forall c :: c in id[i + |TemplateDir|..] ==> !IsLineTerminator(c)
  }

  /** A path whose directory part is the template directory is a template. */
  lemma TemplatePathMatches(prefix: string, name: string)
    requires forall c :: c in name ==> !IsLineTerminator(c)
    ensures IsTemplateId(prefix + TemplateDir + name)
  {
    var id := prefix + TemplateDir + name;
    assert id[|prefix|..] == TemplateDir + name;
    assert id[|prefix| + |TemplateDir|..] == name;
  }

  /** A path without the template directory is not a template. */
  lemma OtherPathPasses(id: string)
    requires !Text.Includes(id, TemplateDir)
    ensures !IsTemplateId(id)
  {
  }

  /** `transform(code, id)`: the replaced code for a template, else null. */
  function Transform(cfg: OverlayConfig, code: string, id: string): (r: Option<string>)
    ensures r.Some? <==> IsTemplateId(id)
    ensures r.Some? ==> r.value == DoReplacements(cfg.replace, code)
  {
    if IsTemplateId(id) then Some(DoReplacements(cfg.replace, code)) else None
  }

  /** The asset `generateBundle` emits for the template page text. */
  function BundleAsset(cfg: OverlayConfig, templateText: string): Asset {
    Asset(cfg.staticFile, DoReplacements(cfg.replace, templateText))
  }

  /** The copied page receives exactly the replacements `transform` applies to
      the template sources. */
  lemma BundleMatchesTransform(cfg: OverlayConfig, templateText: string)
    ensures Transform(cfg, templateText, TemplatePage) == Some(BundleAsset(cfg, templateText).source)
    ensures BundleAsset(cfg, templateText).fileName == cfg.staticFile
  {
    TemplatePathMatches("src/", "overlay.html");
  }

  /** The bundler's `emitFile` target. */
  class Bundle {
    var emitted: seq<Asset>

    constructor ()
      ensures emitted == []
    {
      emitted := [];
    }

    /** `generateBundle()`: one asset, the replaced template page under the
        configured name. The page text is read by the caller. */
    method GenerateBundle(cfg: OverlayConfig, templateText: string)
      modifies this
      ensures emitted == old(emitted) + [BundleAsset(cfg, templateText)]
      ensures emitted[|emitted| - 1].fileName == cfg.staticFile
    {
      emitted := emitted + [Asset(cfg.staticFile, DoReplacements(cfg.replace, templateText))];
    }
  }
}
