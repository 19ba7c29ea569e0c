/** The build configuration: the application bundle, then one bundle per
    addon that has an overlay, each built from the shared overlay template
    with the addon's names filled in. */
module RollupConfig {
  import opened Wrappers
  import Text
  import SvelteOverlay

  /** The fields of a seed addon the build reads. */
  datatype SeedAddon = SeedAddon(addonId: string, name: string, overlayFile: string,
                                 staticFile: string, requiresOverlay: bool)

  /** One bundle: its entry script, its output file and, for an overlay, the
      template plugin's options. */
  datatype BuildEntry = BuildEntry(input: string, name: string, file: string,
                                   overlay: Option<SvelteOverlay.OverlayConfig>)

  const AddonNameKey: string := "%%ADDON_NAME%%"
  const SvelteSrcKey: string := "%%SVELTE_SRC_FILE%%"
  const OverlaySrcKey: string := "%%OVERLAY_SRC_FILE%%"
  const AddonIdKey: string := "%%ADDON_ID%%"

  const Html: string := ".html"
  const Js: string := ".js"

  /** `output`: the production web root only for a production build. */
  function OutputDir(nodeEnv: Option<string>): (r: string)
    ensures r == "www_root" <==> nodeEnv == Some("production")
    ensures r == "www_root" || r == "www_root_dev"
  {
    if nodeEnv == Some("production") then "www_root" else "www_root_dev"
  }

  /** `s.replace(pattern, replacement)` with a string pattern: the first
      occurrence only. */
  function ReplaceFirst(s: string, pattern: string, replacement: string): (r: string)
    ensures !Text.Includes(s, pattern) ==> r == s
    ensures Text.Includes(s, pattern) ==>
      var i := Text.IndexOf(s, pattern);
      r == s[..i] + replacement + s[i + |pattern|..]
  {
    var i := Text.IndexOf(s, pattern);
    if i == -1 then s else s[..i] + replacement + s[i + |pattern|..]
  }

  /** The script name the overlay page loads. */
  function ScriptFile(staticFile: string): string {
    ReplaceFirst(staticFile, Html, Js)
  }

  /** The first `.html` in the name becomes `.js` and whatever follows it is
      kept, a later `.html` included. */
  lemma ScriptFileFirstHtml(base: string, rest: string)
    requires !Text.Includes(base, Html)
    ensures ScriptFile(base + Html + rest) == base + Js + rest
  {
    var s := base + Html + rest;
    assert s[|base|..][..|Html|] == Html;
    forall j | 0 <= j < |base|
      ensures !Text.StartsWith(s[j..], Html)
    {
      if j + |Html| <= |base| {
        assert s[j..][..|Html|] == base[j..][..|Html|];
        assert !Text.StartsWith(base[j..], Html);
      } else {
        assert s[j..][|base| - j] == '.' != Html[|base| - j];
      }
    }
    assert Text.IndexOf(s, Html) == |base|;
    assert s[..|base|] == base;
    assert s[|base| + |Html|..] == rest;
  }

  /** The replacement table of an addon, in the order the keys are written. */
  function ReplaceTable(addon: SeedAddon): SvelteOverlay.Table {
    [(AddonNameKey, addon.name), (SvelteSrcKey, addon.overlayFile),
     (OverlaySrcKey, ScriptFile(addon.staticFile)), (AddonIdKey, addon.addonId)]
  }

  /** The bundle for one overlay addon. */
  function OverlayEntry(addon: SeedAddon, output: string): (r: BuildEntry)
    ensures r.file == output + "/overlay/" + ScriptFile(addon.staticFile)
    ensures r.overlay.Some? && r.overlay.value.staticFile == addon.staticFile
    ensures r.overlay.value.output == SvelteOverlay.TemplatePage
    ensures r.input == "src/overlays/template/overlay.js" && r.name == "overlay"
    ensures r.overlay.value.replace ==
      [(AddonNameKey, addon.name), (SvelteSrcKey, addon.overlayFile),
       (OverlaySrcKey, ScriptFile(addon.staticFile)), (AddonIdKey, addon.addonId)]
  {
    BuildEntry("src/overlays/template/overlay.js", "overlay", output + "/overlay/" + ScriptFile(addon.staticFile),
               Some(SvelteOverlay.OverlayConfig(SvelteOverlay.TemplatePage, addon.staticFile, ReplaceTable(addon))))
  }

  /** The four template keys are distinct, so no key of the table shadows
      another. */
  lemma TemplateKeysDistinct(addon: SeedAddon)
    ensures forall i, j :: 0 <= i < j < |ReplaceTable(addon)| ==> ReplaceTable(addon)[i].0 != ReplaceTable(addon)[j].0
  {
    assert |AddonIdKey| == 12 && |AddonNameKey| == 14 && |SvelteSrcKey| == 19 && |OverlaySrcKey| == 20;
  }

  /** The addon id placeholder becomes the addon's id. */
  lemma AddonIdFilled(addon: SeedAddon)
    ensures SvelteOverlay.DoReplacements(ReplaceTable(addon), AddonIdKey) == addon.addonId
  {
    var t := ReplaceTable(addon);
    assert |AddonIdKey| == 12 && |AddonNameKey| == 14 && |SvelteSrcKey| == 19 && |OverlaySrcKey| == 20;
    assert t[1..][1..][1..] == [(AddonIdKey, addon.addonId)];
    assert SvelteOverlay.FirstKeyAt(t[1..][1..][1..], AddonIdKey) == 0;
    assert SvelteOverlay.FirstKeyAt(t[1..][1..], AddonIdKey) == 1;
    assert SvelteOverlay.FirstKeyAt(t[1..], AddonIdKey) == 2;
    assert SvelteOverlay.FirstKeyAt(t, AddonIdKey) == 3;
    assert AddonIdKey[|AddonIdKey|..] == [];
    assert SvelteOverlay.FirstKeyAt(t, []) == -1;
  }

  /** `addons.filter(addon => addon.requiresOverlay)`. */
  function Overlaid(addons: seq<SeedAddon>): (r: seq<SeedAddon>)
    ensures forall a :: a in r <==> a in addons && a.requiresOverlay
    ensures |r| <= |addons|
  {
    if addons == [] then []
    else (if addons[0].requiresOverlay then [addons[0]] else []) + Overlaid(addons[1..])
  }

  /** The positions, from `from` on, of the addons that need an overlay, in
      increasing order. */
  function OverlayPositions(addons: seq<SeedAddon>, from: nat): (r: seq<nat>)
    requires from <= |addons|
    ensures forall k :: 0 <= k < |r| ==> from <= r[k] < |addons| && addons[r[k]].requiresOverlay
    ensures forall k, l :: 0 <= k < l < |r| ==> r[k] < r[l]
    ensures forall i :: from <= i < |addons| && addons[i].requiresOverlay ==> i in r
    decreases |addons| - from
  {
    if from == |addons| then []
    else (if addons[from].requiresOverlay then [from] else []) + OverlayPositions(addons, from + 1)
  }

  /** The filter keeps the overlay addons in their order: its k-th element is
      the addon at the k-th overlay position. */
  lemma {:induction false} OverlaidInOrder(addons: seq<SeedAddon>, from: nat)
    requires from <= |addons|
    ensures |Overlaid(addons[from..])| == |OverlayPositions(addons, from)|
    ensures forall k :: 0 <= k < |OverlayPositions(addons, from)| ==>
      Overlaid(addons[from..])[k] == addons[OverlayPositions(addons, from)[k]]
    decreases |addons| - from
  {
    if from < |addons| {
      var tail := Overlaid(addons[from + 1..]);
      var ps := OverlayPositions(addons, from + 1);
      OverlaidInOrder(addons, from + 1);
      assert addons[from..][1..] == addons[from + 1..];
      if addons[from].requiresOverlay {
        assert Overlaid(addons[from..]) == [addons[from]] + tail;
        assert OverlayPositions(addons, from) == [from] + ps;
        PrependMatched(addons, from, tail, ps);
      } else {
        assert Overlaid(addons[from..]) == tail;
        assert OverlayPositions(addons, from) == ps;
      }
    }
  }

  /** Putting a position and its addon in front keeps the two sequences
      matched index by index. */
  lemma PrependMatched(addons: seq<SeedAddon>, i: nat, tail: seq<SeedAddon>, ps: seq<nat>)
    requires i < |addons|
    requires |tail| == |ps|
    requires forall k :: 0 <= k < |ps| ==> ps[k] < |addons| && tail[k] == addons[ps[k]]
    ensures forall k :: 0 <= k < |ps| + 1 ==> ([i] + ps)[k] < |addons| && ([addons[i]] + tail)[k] == addons[([i] + ps)[k]]
  {
    forall k | 0 <= k < |ps| + 1
      ensures ([i] + ps)[k] < |addons| && ([addons[i]] + tail)[k] == addons[([i] + ps)[k]]
    {
      if k > 0 {
        assert ([i] + ps)[k] == ps[k - 1];
        assert ([addons[i]] + tail)[k] == tail[k - 1];
      }
    }
  }

  /** `getOverlays()`: one bundle per overlay addon, in addon order. */
  function GetOverlays(addons: seq<SeedAddon>, output: string): (r: seq<BuildEntry>)
    ensures |r| == |Overlaid(addons)|
    ensures forall i :: 0 <= i < |r| ==> r[i] == OverlayEntry(Overlaid(addons)[i], output)
  {
    if addons == [] then []
    else (if addons[0].requiresOverlay then [OverlayEntry(addons[0], output)] else []) + GetOverlays(addons[1..], output)
  }

  /** The application bundle. */
  function AppEntry(output: string): BuildEntry {
    BuildEntry("src/client/app.js", "app", output + "/app.js", None)
  }

  /** The exported configuration: the application bundle first, then the
      overlays, all under the output directory for the build mode. */
  function Config(addons: seq<SeedAddon>, nodeEnv: Option<string>): (r: seq<BuildEntry>)
    ensures |r| == 1 + |Overlaid(addons)|
    ensures r[0] == AppEntry(OutputDir(nodeEnv)) && r[0].overlay.None?
    ensures forall i :: 1 <= i < |r| ==> r[i].overlay.Some? && r[i] == OverlayEntry(Overlaid(addons)[i - 1], OutputDir(nodeEnv))
  {
    [AppEntry(OutputDir(nodeEnv))] + GetOverlays(addons, OutputDir(nodeEnv))
  }
}
