/**
 The Claude settings integration (internal/install/claude.go), over parsed JSON.
 The installer owns the top-level `cachy` object and, as long as it wrote it,
 the entry ANTHROPIC_BASE_URL under `env`. The run theorems say what it leaves
 alone; the exact conditions say when a user's own URL can be taken over.
 */
module Claude {
  import opened Outcome

  datatype Json =
    | Null
    | Bool(b: bool)
    | Number(n: real)
    | Str(s: string)
    | Array(items: seq<Json>)
    | Object(fields: map<string, Json>)

  type Fields = map<string, Json>

  datatype Action = Install | Repair | Uninstall | Unsupported(name: string)

  const EnvKey := "env"
  const CachyKey := "cachy"
  const UrlKey := "ANTHROPIC_BASE_URL"
  const ManagedKey := "managed"
  const RecordKey := "anthropic_base_url"

  /** The object under a key, or an empty one. */
  function Child(parent: Fields, key: string): Fields {
    if key in parent && parent[key].Object? then parent[key].fields else map[]
  }

  /** A comma-ok string lookup that yields "" when there is no string. */
  function StringAt(m: Fields, key: string): string {
    if key in m && m[key].Str? then m[key].s else ""
  }

  function EnvUrl(top: Fields): string {
    StringAt(Child(top, EnvKey), UrlKey)
  }

  function Recorded(top: Fields): string {
    StringAt(Child(top, CachyKey), RecordKey)
  }

  /** A URL the user set: present, not empty and not the one Cachy recorded. */
  predicate UserUrl(top: Fields) {
    EnvUrl(top) != "" && EnvUrl(top) != Recorded(top)
  }

  function Installed(top: Fields, url: string): Fields {
    var env := Child(top, EnvKey);
    var env' := if UserUrl(top) then env else env[UrlKey := Str(url)];
    var metadata := Child(top, CachyKey)[ManagedKey := Bool(true)][RecordKey := Str(url)];
    top[EnvKey := Object(env')][CachyKey := Object(metadata)]
  }

  function Uninstalled(top: Fields): Fields {
    var env := Child(top, EnvKey);
    var env' := if EnvUrl(top) == Recorded(top) then env - {UrlKey} else env;
    if Recorded(top) == "" || EnvKey !in top || !top[EnvKey].Object? then top - {CachyKey}
    else if env' == map[] then top - {EnvKey} - {CachyKey}
    else top[EnvKey := Object(env')] - {CachyKey}
  }

  // ----- The source's own steps -----

  /** childMap: the nested object under a key, put in place if it is missing. */
  method ChildMap(parent: Fields, key: string) returns (child: Fields, updated: Fields)
    ensures child == Child(parent, key)
    ensures updated == parent[key := Object(child)]
  {
    if key in parent && parent[key].Object? {
      return parent[key].fields, parent;
    }
    child := map[];
    updated := parent[key := Object(child)];
  }

  /** The install and repair case of planClaudeSettings, on a copy of the settings. */
  method PlanInstall(settings: Fields, url: string) returns (next: Fields)
    ensures next == Installed(settings, url)
  {
    KeysDiffer();
    var env, metadata;
    env, next := ChildMap(settings, EnvKey);
    metadata, next := ChildMap(next, CachyKey);
    var previousManagedUrl := StringAt(metadata, RecordKey);
    var hasCurrentUrl := UrlKey in env && env[UrlKey].Str?;
    var currentUrl := StringAt(env, UrlKey);
    if hasCurrentUrl && currentUrl != "" && currentUrl != previousManagedUrl {
      metadata := metadata[ManagedKey := Bool(true)];
      metadata := metadata[RecordKey := Str(url)];
      next := next[CachyKey := Object(metadata)];
      return;
    }
    env := env[UrlKey := Str(url)];
    metadata := metadata[ManagedKey := Bool(true)];
    metadata := metadata[RecordKey := Str(url)];
    next := next[EnvKey := Object(env)];
    next := next[CachyKey := Object(metadata)];
  }

  /** The environment without the recorded URL, or no environment if nothing is left. */
  method RemoveRecordedUrl(settings: Fields, recorded: string) returns (next: Fields)
    requires EnvKey in settings && settings[EnvKey].Object?
    ensures var env := settings[EnvKey].fields;
            var left := if StringAt(env, UrlKey) == recorded then env - {UrlKey} else env;
            next == if left == map[] then settings - {EnvKey} else settings[EnvKey := Object(left)]
  {
    next := settings;
    var env := next[EnvKey].fields;
    if StringAt(env, UrlKey) == recorded {
      env := env - {UrlKey};
      next := next[EnvKey := Object(env)];
    }
    if |env| == 0 {
      next := next - {EnvKey};
    }
  }

  /** The uninstall case. */
  method PlanUninstall(settings: Fields) returns (next: Fields)
    ensures next == Uninstalled(settings)
  {
    next := settings;
    if CachyKey in next && next[CachyKey].Object? {
      var previousManagedUrl := StringAt(next[CachyKey].fields, RecordKey);
      if previousManagedUrl != "" && EnvKey in next && next[EnvKey].Object? {
        next := RemoveRecordedUrl(next, previousManagedUrl);
      }
    }
    next := next - {CachyKey};
  }

  /** planClaudeSettings, without its message. */
  method PlanSettings(settings: Fields, action: Action, url: string) returns (result: Result<Fields, string>)
    ensures match action
            case Install | Repair => result == Ok(Installed(settings, url))
            case Uninstall => result == Ok(Uninstalled(settings))
            case Unsupported(name) => result == Err(name)
  {
    match action {
      case Install | Repair =>
        var next := PlanInstall(settings, url);
        result := Ok(next);
      case Uninstall =>
        var next := PlanUninstall(settings);
        result := Ok(next);
      case Unsupported(name) =>
        result := Err(name);
    }
  }

  /** The settings file, as parsed. */
  class SettingsFile {
    var settings: Fields

    constructor (initial: Fields)
      ensures settings == initial
    {
      settings := initial;
    }

    /** ApplyClaudeIntegration on a readable and writable file. */
    method Apply(action: Action, url: string, dryRun: bool) returns (changed: bool, preview: Result<Fields, string>)
      modifies this
      ensures match action
              case Install | Repair => preview == Ok(Installed(old(settings), url))
              case Uninstall => preview == Ok(Uninstalled(old(settings)))
              case Unsupported(name) => preview == Err(name)
      ensures changed <==> preview.Ok? && preview.value != old(settings)
      ensures settings == if changed && !dryRun then preview.value else old(settings)
    {
      preview := PlanSettings(settings, action, url);
      changed := preview.Ok? && preview.value != settings;
      if !dryRun && changed {
        settings := preview.value;
      }
    }
  }

  // ----- Runs -----

  datatype Step = Configure(url: string) | Clean

  function Apply(top: Fields, step: Step): Fields {
    match step
    case Configure(url) => Installed(top, url)
    case Clean => Uninstalled(top)
  }

  function Run(top: Fields, steps: seq<Step>): Fields {
    if steps == [] then top else Apply(Run(top, steps[..|steps| - 1]), steps[|steps| - 1])
  }

  /** `env` and `cachy` are objects or absent. */
  predicate WellFormed(top: Fields) {
    && (EnvKey in top ==> top[EnvKey].Object?)
    && (CachyKey in top ==> top[CachyKey].Object?)
  }

  function OtherKeys(top: Fields): Fields {
    top - {EnvKey, CachyKey}
  }

  function OtherEnv(top: Fields): Fields {
    Child(top, EnvKey) - {UrlKey}
  }

  lemma KeysDiffer()
    ensures EnvKey != CachyKey && UrlKey != ManagedKey && UrlKey != RecordKey && ManagedKey != RecordKey
  {
    assert |EnvKey| == 3 && |CachyKey| == 5 && |UrlKey| == 18 && |ManagedKey| == 7;
    assert UrlKey[0] == 'A' && RecordKey[0] == 'a' && ManagedKey[0] == 'm';
  }

  lemma InstalledReads(top: Fields, url: string)
    ensures Recorded(Installed(top, url)) == url
    ensures EnvUrl(Installed(top, url)) ==
            if EnvUrl(top) != "" && EnvUrl(top) != Recorded(top) then EnvUrl(top) else url
    ensures OtherKeys(Installed(top, url)) == OtherKeys(top)
    ensures OtherEnv(Installed(top, url)) == OtherEnv(top)
    ensures WellFormed(Installed(top, url))
    ensures var metadata := Child(Installed(top, url), CachyKey);
            && ManagedKey in metadata && metadata[ManagedKey] == Bool(true)
            && metadata - {ManagedKey, RecordKey} == Child(top, CachyKey) - {ManagedKey, RecordKey}
  {
    KeysDiffer();
    var m := Child(top, CachyKey);
    assert m[ManagedKey := Bool(true)][RecordKey := Str(url)] - {ManagedKey, RecordKey} == m - {ManagedKey, RecordKey};
    var env := Child(top, EnvKey);
    assert env[UrlKey := Str(url)] - {UrlKey} == env - {UrlKey};
    assert OtherKeys(Installed(top, url)) == OtherKeys(top);
  }

  lemma UninstalledReads(top: Fields)
    ensures Recorded(Uninstalled(top)) == ""
    ensures EnvUrl(Uninstalled(top)) == if Recorded(top) != "" && EnvUrl(top) == Recorded(top) then "" else EnvUrl(top)
    ensures OtherKeys(Uninstalled(top)) == OtherKeys(top)
    ensures OtherEnv(Uninstalled(top)) == OtherEnv(top)
    ensures WellFormed(top) ==> WellFormed(Uninstalled(top))
    ensures "cachy" !in Uninstalled(top)
    ensures "env" in Uninstalled(top) <==>
      && "env" in top
      && (Recorded(top) == "" || !top["env"].Object? || OtherEnv(top) != map[]
          || (UrlKey in Child(top, EnvKey) && EnvUrl(top) != Recorded(top)))
  {
    KeysDiffer();
    var env := Child(top, EnvKey);
    assert (env - {UrlKey}) - {UrlKey} == env - {UrlKey};
    assert forall k :: k in env && k != UrlKey ==> k in env - {UrlKey};
    assert UrlKey !in env ==> env - {UrlKey} == env;
    assert OtherKeys(Uninstalled(top)) == OtherKeys(top);
  }

  /** Whatever the run, every other top-level key and every other environment entry
      keeps its value. */
  lemma {:induction false} RunKeepsOthers(top: Fields, steps: seq<Step>)
    requires WellFormed(top)
    ensures var end := Run(top, steps);
            WellFormed(end) && OtherKeys(end) == OtherKeys(top) && OtherEnv(end) == OtherEnv(top)
    decreases |steps|
  {
    if steps != [] {
      var before := steps[..|steps| - 1];
      RunKeepsOthers(top, before);
      UninstalledReads(Run(top, before));
      if steps[|steps| - 1].Configure? { InstalledReads(Run(top, before), steps[|steps| - 1].url); }
    }
  }

  predicate Asks(steps: seq<Step>, url: string) {
    Configure(url) in steps
  }

  predicate EndsWith(steps: seq<Step>, step: Step) {
    steps != [] && steps[|steps| - 1] == step
  }

  /** Before the first step that asks for the user's URL it stays the user's; from then
      on the environment holds what Cachy recorded. */
  lemma {:induction false} RunOwnsUrl(top: Fields, steps: seq<Step>)
    requires UserUrl(top)
    ensures var end, u := Run(top, steps), EnvUrl(top);
            if !Asks(steps, u) then EnvUrl(end) == u && UserUrl(end)
            else EnvUrl(end) == Recorded(end) && (EnvUrl(end) == u <==> EndsWith(steps, Configure(u)))
    decreases |steps|
  {
    if steps != [] {
      var before, step := steps[..|steps| - 1], steps[|steps| - 1];
      RunOwnsUrl(top, before);
      assert steps == before + [step];
      UninstalledReads(Run(top, before));
      if step.Configure? { InstalledReads(Run(top, before), step.url); }
    }
  }

  /** A user's URL is in place at the end of a run if and only if no step asks for it, or
      the last one does. */
  lemma UserUrlAfterRunIff(top: Fields, steps: seq<Step>)
    requires UserUrl(top)
    ensures EnvUrl(Run(top, steps)) == EnvUrl(top)
       <==> !Asks(steps, EnvUrl(top)) || EndsWith(steps, Configure(EnvUrl(top)))
  {
    RunOwnsUrl(top, steps);
  }

  /** Once a step asks for this URL, all later ones do. */
  predicate OnlyAsksOn(steps: seq<Step>, url: string) {
    forall i :: 0 <= i < |steps| - 1 && steps[i] == Configure(url) ==> steps[i + 1] == Configure(url)
  }

  lemma AskedToTheEnd(steps: seq<Step>, url: string, k: nat)
    requires OnlyAsksOn(steps, url) && k <= |steps| && Asks(steps[..k], url)
    ensures EndsWith(steps[..k], Configure(url))
  {
    var i :| 0 <= i < k && steps[..k][i] == Configure(url);
    while i < k - 1
      invariant 0 <= i < k && steps[i] == Configure(url)
    {
      i := i + 1;
    }
  }

  /** A user's URL is in place after every step of a run if and only if every step that
      asks for it, the last one aside, is followed by another that does. */
  lemma UserUrlThroughoutIff(top: Fields, steps: seq<Step>)
    requires UserUrl(top)
    ensures (forall k :: 0 <= k <= |steps| ==> EnvUrl(Run(top, steps[..k])) == EnvUrl(top))
       <==> OnlyAsksOn(steps, EnvUrl(top))
  {
    var u := EnvUrl(top);
    if OnlyAsksOn(steps, u) {
      forall k | 0 <= k <= |steps| ensures EnvUrl(Run(top, steps[..k])) == u {
        UserUrlAfterRunIff(top, steps[..k]);
        if Asks(steps[..k], u) { AskedToTheEnd(steps, u, k); }
      }
    }
    if forall k :: 0 <= k <= |steps| ==> EnvUrl(Run(top, steps[..k])) == u {
      forall i | 0 <= i < |steps| - 1 && steps[i] == Configure(u) ensures steps[i + 1] == Configure(u) {
        var first := steps[..i + 2];
        assert EnvUrl(Run(top, first)) == u;
        UserUrlAfterRunIff(top, first);
        assert first[i] == Configure(u) && first[i + 1] == steps[i + 1];
      }
    }
  }

  /** A user's URL that no step asks for and that was not recorded before is never
      altered or removed, whatever the run. */
  lemma RunKeepsUserUrl(top: Fields, steps: seq<Step>)
    requires UserUrl(top)
    requires forall i :: 0 <= i < |steps| && steps[i].Configure? ==> steps[i].url != EnvUrl(top)
    ensures forall k :: 0 <= k <= |steps| ==> EnvUrl(Run(top, steps[..k])) == EnvUrl(top)
  {
    UserUrlThroughoutIff(top, steps);
  }

  /** An adopted URL is lost: the user's own URL is the one asked for, and uninstalling
      removes it. */
  lemma AdoptedUrlIsLost(url: string)
    requires url != ""
    ensures var top: Fields := map[EnvKey := Object(map[UrlKey := Str(url)])];
            && UserUrl(top) && EnvUrl(top) == url
            && EnvUrl(Run(top, [Configure(url), Clean])) == ""
  {
    KeysDiffer();
    var top: Fields := map[EnvKey := Object(map[UrlKey := Str(url)])];
    var steps := [Configure(url), Clean];
    assert steps[..1][..0] == [];
    assert Run(top, steps[..1]) == Installed(top, url);
    assert Run(top, steps) == Uninstalled(Installed(top, url));
    InstalledReads(top, url);
    UninstalledReads(Installed(top, url));
  }

  /** The condition is exact for an install followed by an uninstall: a URL equal to
      the recorded or to the requested one is adopted and then removed. */
  lemma UserUrlSurvivesIff(top: Fields, url: string)
    requires EnvUrl(top) != ""
    ensures EnvUrl(Uninstalled(Installed(top, url))) == EnvUrl(top)
       <==> EnvUrl(top) != Recorded(top) && EnvUrl(top) != url
  {
    InstalledReads(top, url);
    UninstalledReads(Installed(top, url));
  }

  /** Repairing overrides an earlier install exactly when that install did not adopt
      the user's own URL. */
  lemma LastWriterWinsIff(top: Fields, first: string, last: string)
    ensures Installed(Installed(top, first), last) == Installed(top, last)
       <==> !(UserUrl(top) && EnvUrl(top) == first) || first == last
  {
    var middle := Installed(top, first);
    InstalledReads(top, first);
    InstalledReads(top, last);
    InstalledReads(middle, last);
    KeysDiffer();
    if !(UserUrl(top) && EnvUrl(top) == first) || first == last {
      var m := Child(top, CachyKey)[ManagedKey := Bool(true)];
      assert m[RecordKey := Str(first)][ManagedKey := Bool(true)][RecordKey := Str(last)] == m[RecordKey := Str(last)];
      assert Child(middle, CachyKey) == m[RecordKey := Str(first)];
      var env := Child(top, EnvKey);
      assert env[UrlKey := Str(first)][UrlKey := Str(last)] == env[UrlKey := Str(last)];
      assert UserUrl(top) && EnvUrl(top) == last ==> env[UrlKey := Str(last)] == env;
      assert Child(Installed(middle, last), EnvKey) == Child(Installed(top, last), EnvKey);
      var env', metadata := Object(Child(Installed(top, last), EnvKey)), Object(m[RecordKey := Str(last)]);
      assert middle[EnvKey := env'][CachyKey := metadata] == top[EnvKey := env'][CachyKey := metadata];
    }
  }

  /** Uninstalling keeps a user's URL that is not the one installed; any other entry
      under its name goes, and an empty environment goes with it. */
  lemma InstallUninstallYields(top: Fields, url: string)
    requires WellFormed(top) && CachyKey !in top && url != ""
    ensures var env := Child(top, EnvKey) - {UrlKey};
            Uninstalled(Installed(top, url)) ==
            if EnvUrl(top) != "" && EnvUrl(top) != url then top
            else if env == map[] then top - {EnvKey}
            else top[EnvKey := Object(env)]
  {
    KeysDiffer();
    InstalledReads(top, url);
    var env := Child(top, EnvKey);
    assert env[UrlKey := Str(url)] - {UrlKey} == env - {UrlKey};
    assert EnvUrl(top) != "" ==> UrlKey in env;
  }

  /** The settings hold no Cachy entry and no malformed environment, and what they hold
      under the URL's name, if anything, is a URL other than the one to install; an
      environment without it holds something else. */
  predicate Restorable(top: Fields, url: string) {
    && WellFormed(top) && CachyKey !in top
    && var env := Child(top, EnvKey);
       || (UrlKey !in env && (EnvKey in top ==> env != map[]))
       || (EnvUrl(top) != "" && EnvUrl(top) != url)
  }

  /** Install then uninstall gives exactly the restorable settings back. */
  lemma InstallUninstallRestoresIff(top: Fields, url: string)
    requires url != ""
    ensures Uninstalled(Installed(top, url)) == top <==> Restorable(top, url)
  {
    KeysDiffer();
    var back := Uninstalled(Installed(top, url));
    assert CachyKey !in back;
    InstalledReads(top, url);
    UninstalledReads(Installed(top, url));
    assert WellFormed(back);
    if WellFormed(top) && CachyKey !in top {
      InstallUninstallYields(top, url);
      var env := Child(top, EnvKey);
      assert UrlKey !in env ==> env - {UrlKey} == env;
      assert UrlKey in env ==> env - {UrlKey} != env;
      if EnvKey in top { assert top[EnvKey] == Object(env); }
    }
  }

  /** An entry that is not a string, or an empty one, is overwritten and then removed. */
  lemma UnusableUrlIsLost(entry: Json, url: string)
    requires url != "" && (entry.Str? ==> entry.s == "")
    ensures var top: Fields := map[EnvKey := Object(map[UrlKey := entry])];
            Uninstalled(Installed(top, url)) == map[]
  {
    KeysDiffer();
    var env: Fields := map[UrlKey := entry];
    var top: Fields := map[EnvKey := Object(env)];
    InstallUninstallYields(top, url);
    assert env - {UrlKey} == map[] && top - {EnvKey} == map[];
  }

  /** What an install writes into empty settings, and into settings with a URL of the
      user's own. */
  lemma InstallWrites(own: string, url: string)
    requires own != ""
    ensures var record: Fields := map["managed" := Bool(true), "anthropic_base_url" := Str(url)];
            && Installed(map[], url) ==
               map["env" := Object(map["ANTHROPIC_BASE_URL" := Str(url)]), "cachy" := Object(record)]
            && Installed(map["env" := Object(map["ANTHROPIC_BASE_URL" := Str(own)])], url) ==
               map["env" := Object(map["ANTHROPIC_BASE_URL" := Str(own)]), "cachy" := Object(record)]
  {
    KeysDiffer();
  }

  /** What is read as the URL and as the record: strings at their places, and nothing
      else. */
  lemma UrlReads(top: Fields, url: string)
    requires url != ""
    ensures EnvUrl(top) == url <==>
      && "env" in top && top["env"].Object?
      && "ANTHROPIC_BASE_URL" in top["env"].fields && top["env"].fields["ANTHROPIC_BASE_URL"] == Str(url)
    ensures Recorded(top) == url <==>
      && "cachy" in top && top["cachy"].Object?
      && "anthropic_base_url" in top["cachy"].fields && top["cachy"].fields["anthropic_base_url"] == Str(url)
  {
  }
}
