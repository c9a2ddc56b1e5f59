/** What an eligible attestation discloses. */
module Disclosure {
  import opened Prelude
  import opened Approximation

  // ------------------------------------------------------------------ diagnostics

  ghost predicate Coded(ds: seq<Diagnostic>, path: string, code: string) {
    exists j :: 0 <= j < |ds| && ds[j].path == path && ds[j].code == code
  }

  /** Diagnosed, and not as a repetition. */
  ghost predicate Single(ds: seq<Diagnostic>, path: string) {
    Diagnosed(ds, path) && !Coded(ds, path, DUPLICATE)
  }

  lemma IndexIs(ds: seq<Diagnostic>, path: string)
    ensures path in Index(ds) <==> Diagnosed(ds, path)
    ensures path in Index(ds) ==> forall code :: code in Index(ds)[path] <==> Coded(ds, path, code)
  {
    if path in Index(ds) {
      forall code ensures code in Index(ds)[path] <==> Coded(ds, path, code) {
        assert code in CodesAt(ds, path) <==> Coded(ds, path, code);
      }
    }
  }

  // ------------------------------------------------------- children of the settings root

  /** Current layout does not hyphenate: Word's own setting, diagnosed as affecting pagination. */
  ghost predicate Hyphenates(ds: seq<Diagnostic>, c: Setting) {
    c.word && c.extra.None? && c.local == "autoHyphenation" && Coded(ds, c.path, "PAGINATION_SETTING_UNSUPPORTED")
  }

  /** Nor does it compress punctuation. */
  ghost predicate Compresses(ds: seq<Diagnostic>, c: Setting) {
    c.word && c.extra.None? && c.local == "characterSpacingControl" && Coded(ds, c.path, "CHARACTER_SPACING_CONTROL_UNSUPPORTED")
  }

  /** A setting that matters to authors only. */
  ghost predicate AuthoringOnly(ds: seq<Diagnostic>, c: Setting) {
    && Single(ds, c.path) && c.word && c.extra.None? && c.authoring && c.local != "autoHyphenation"
    && Coded(ds, c.path, "PAGINATION_SETTING_UNSUPPORTED") && !Compresses(ds, c)
  }

  /** The child has to be disclosed by a fact of its own. */
  ghost predicate Due(ds: seq<Diagnostic>, c: Setting) {
    Single(ds, c.path) && (c.extra.Some? || Hyphenates(ds, c) || Compresses(ds, c))
  }

  /** f says where the child is, what it is, and its value. */
  ghost predicate FactOf(ds: seq<Diagnostic>, c: Setting, f: Fact) {
    && Due(ds, c) && f.path == c.path && f.kind == c.local
    && (if c.extra.Some? then c.extra == Some(f.values)
        else if Hyphenates(ds, c) then c.hyphenation == Some(f.values)
        else c.spacing.Some? && f.values == map["val" := c.spacing.value])
  }

  lemma OwnFactIs(ds: seq<Diagnostic>, c: Setting)
    ensures forall f :: OwnFact(c, Index(ds)) == Some(f) <==> FactOf(ds, c, f)
    ensures Unreadable(c, Index(ds)) <==>
              (Due(ds, c) && forall f :: !FactOf(ds, c, f)) || (AuthoringOnly(ds, c) && c.summary.None?)
    ensures Grouped(c, Index(ds)) <==> AuthoringOnly(ds, c)
  {
    hide Index, Diagnosed, Coded;
    IndexIs(ds, c.path);
    if Due(ds, c) && c.extra.Some? { assert FactOf(ds, c, Fact(c.local, c.path, c.extra.value)); }
    if Due(ds, c) && Hyphenates(ds, c) && c.hyphenation.Some? { assert FactOf(ds, c, Fact(c.local, c.path, c.hyphenation.value)); }
    if Due(ds, c) && Compresses(ds, c) && c.spacing.Some? { assert FactOf(ds, c, Fact(c.local, c.path, map["val" := c.spacing.value])); }
  }

  lemma {:induction false} OwnFactsAre(ds: seq<Diagnostic>, cs: seq<Setting>, f: Fact)
    ensures f in OwnFacts(cs, Index(ds)) <==> exists i :: 0 <= i < |cs| && FactOf(ds, cs[i], f)
  {
    hide Index, OwnFact, FactOf;
    if cs == [] {
    } else {
      var init, c := cs[..|cs| - 1], cs[|cs| - 1];
      OwnFactsAre(ds, init, f);
      OwnFactIs(ds, c);
      assert forall i :: 0 <= i < |init| ==> init[i] == cs[i];
      if i :| 0 <= i < |cs| && FactOf(ds, cs[i], f) { assert i < |init| ==> FactOf(ds, init[i], f); }
      if i :| 0 <= i < |init| && FactOf(ds, init[i], f) { assert FactOf(ds, cs[i], f); }
    }
  }

  /** The paths of the authoring-only children that can be summarised. */
  ghost function AuthoringPaths(ds: seq<Diagnostic>, cs: seq<Setting>): set<string> {
    set i | 0 <= i < |cs| && AuthoringOnly(ds, cs[i]) && cs[i].summary.Some? :: cs[i].path
  }

  /** The summary a group holds for a path is that of an authoring-only child there. */
  ghost predicate Summarised(ds: seq<Diagnostic>, cs: seq<Setting>, path: string, summary: string) {
    exists i :: 0 <= i < |cs| && AuthoringOnly(ds, cs[i]) && cs[i].path == path && cs[i].summary == Some(summary)
  }

  lemma {:induction false} GroupIs(ds: seq<Diagnostic>, cs: seq<Setting>)
    ensures var g := Group(cs, Index(ds));
      && g.kind == "authoringSettings" && g.values.Keys == AuthoringPaths(ds, cs)
      && (forall path :: path in g.values ==> Summarised(ds, cs, path, g.values[path]))
      && (|g.values| == 0 ==> g.path == "") && (g.path != "" ==> g.path in g.values)
  {
    hide Index, Grouped, AuthoringOnly;
    if cs == [] {
    } else {
      var init, c := cs[..|cs| - 1], cs[|cs| - 1];
      GroupIs(ds, init);
      OwnFactIs(ds, c);
      AuthoringSnoc(ds, init, c);
      assert init + [c] == cs;
    }
  }

  lemma AuthoringSnoc(ds: seq<Diagnostic>, init: seq<Setting>, c: Setting)
    ensures AuthoringPaths(ds, init + [c])
         == AuthoringPaths(ds, init) + if AuthoringOnly(ds, c) && c.summary.Some? then {c.path} else {}
    ensures forall path, summary :: Summarised(ds, init, path, summary) ==> Summarised(ds, init + [c], path, summary)
    ensures AuthoringOnly(ds, c) && c.summary.Some? ==> Summarised(ds, init + [c], c.path, c.summary.value)
  {
    hide AuthoringOnly;
    var cs := init + [c];
    assert cs[|init|] == c;
    assert forall i :: 0 <= i < |init| ==> cs[i] == init[i];
    forall path, summary | Summarised(ds, init, path, summary) ensures Summarised(ds, cs, path, summary) {
      var i :| 0 <= i < |init| && AuthoringOnly(ds, init[i]) && init[i].path == path && init[i].summary == Some(summary);
      assert cs[i] == init[i];
    }
  }

  /** Everything that is due can be read, and no authoring-only child finds the group full. */
  ghost predicate Readable(ds: seq<Diagnostic>, cs: seq<Setting>) {
    forall i :: 0 <= i < |cs| ==>
      && (Due(ds, cs[i]) ==> exists f :: FactOf(ds, cs[i], f))
      && (AuthoringOnly(ds, cs[i]) ==> cs[i].summary.Some? && |AuthoringPaths(ds, cs[..i])| < 64)
  }

  lemma TopFitsIs(ds: seq<Diagnostic>, cs: seq<Setting>)
    ensures TopFits(cs, Index(ds)) <==> Readable(ds, cs)
  {
    hide Index, Grouped, AuthoringOnly, FactOf, Unreadable, Due, Group, AuthoringPaths;
    forall i | 0 <= i < |cs|
      ensures !Unreadable(cs[i], Index(ds)) && (Grouped(cs[i], Index(ds)) ==> |Group(cs[..i], Index(ds)).values| < MAX_GROUP) <==>
        && (Due(ds, cs[i]) ==> exists f :: FactOf(ds, cs[i], f))
        && (AuthoringOnly(ds, cs[i]) ==> cs[i].summary.Some? && |AuthoringPaths(ds, cs[..i])| < 64)
    {
      OwnFactIs(ds, cs[i]);
      GroupIs(ds, cs[..i]);
      MapSize(Group(cs[..i], Index(ds)).values);
    }
  }

  lemma MapSize(m: map<string, string>)
    ensures |m| == |m.Keys|
  {
  }

  // ------------------------------------------------------------------ repeated settings

  lemma {:induction false} RepeatSummary(rs: seq<Repeat>, i: nat)
    requires RepeatsFit(rs) && i < |rs|
    ensures var g := RepeatGroup(rs); rs[i].path in g.values && rs[i].summary == Some(g.values[rs[i].path])
    decreases |rs|
  {
    hide RepeatGroup, Admitted;
    var n := |rs| - 1;
    var init := rs[..n];
    assert rs[..n + 1] == rs;
    OneMoreRepeat(rs, n);
    if i < n {
      RepeatSummary(init, i);
      assert init[i] == rs[i];
    }
    assert Admitted(rs[i]);
    AdmittedSummary(rs[i]);
  }

  lemma RepeatGroupIs(rs: seq<Repeat>)
    requires RepeatsFit(rs)
    ensures var g := RepeatGroup(rs);
      && g.kind == "duplicateSettings"
      && (forall i :: 0 <= i < |rs| ==> rs[i].path in g.values && rs[i].summary == Some(g.values[rs[i].path]))
      && (forall path :: path in g.values ==> exists i :: 0 <= i < |rs| && rs[i].path == path)
  {
    hide RepeatGroup, RepeatsFit;
    RepeatKind(rs);
    GroupPaths(rs);
    forall i | 0 <= i < |rs| ensures rs[i].path in RepeatGroup(rs).values && rs[i].summary == Some(RepeatGroup(rs).values[rs[i].path]) {
      RepeatSummary(rs, i);
    }
  }

  lemma {:induction false} RepeatKind(rs: seq<Repeat>)
    ensures RepeatGroup(rs).kind == "duplicateSettings"
  {
    if rs == [] {
    } else {
      RepeatKind(rs[..|rs| - 1]);
    }
  }

  // ------------------------------------------------------------------ the root as a whole

  /** f is the fact in which all authoring-only children of the root stand, each under its own path with its summary. */
  ghost predicate AuthoringFact(ds: seq<Diagnostic>, cs: seq<Setting>, f: Fact) {
    && f.kind == "authoringSettings" && f.values.Keys == AuthoringPaths(ds, cs) != {}
    && forall path :: path in f.values ==> Summarised(ds, cs, path, f.values[path])
  }

  /** f is the fact in which all repetitions stand. */
  ghost predicate RepeatFact(rs: seq<Repeat>, f: Fact) {
    && f.kind == "duplicateSettings" && rs != []
    && (forall i :: 0 <= i < |rs| ==> rs[i].path in f.values && rs[i].summary == Some(f.values[rs[i].path]))
    && (forall path :: path in f.values ==> exists i :: 0 <= i < |rs| && rs[i].path == path)
  }

  /**
   * The facts of the settings root are exactly: one for every child that is due, with its kind, path and value, one
   * for all authoring-only children, and one for all repetitions.
   */
  lemma RootDisclosed(ds: seq<Diagnostic>, st: Settings, f: Fact)
    requires SettingsFit(st, Index(ds))
    ensures f in RootFacts(st, Index(ds)) ==>
      (exists i :: 0 <= i < |st.children| && FactOf(ds, st.children[i], f)) || AuthoringFact(ds, st.children, f) || RepeatFact(st.repeats, f)
    ensures (exists i :: 0 <= i < |st.children| && FactOf(ds, st.children[i], f)) ==> f in RootFacts(st, Index(ds))
    ensures AuthoringPaths(ds, st.children) != {} ==> exists g :: g in RootFacts(st, Index(ds)) && AuthoringFact(ds, st.children, g)
    ensures st.repeats != [] ==> exists g :: g in RootFacts(st, Index(ds)) && RepeatFact(st.repeats, g)
  {
    hide Index, OwnFacts, Group, RepeatGroup, FactOf, AuthoringPaths, Recordable, CompatFits, TopFits, Summarised;
    OwnFactsAre(ds, st.children, f);
    GroupIs(ds, st.children);
    RepeatGroupIs(st.repeats);
    var own, g, r := OwnFacts(st.children, Index(ds)), Group(st.children, Index(ds)), RepeatGroup(st.repeats);
    MapSize(g.values);
    SomeKey(g.values);
    SomeKey(r.values);
    var top := WithGroup(own, g);
    InGroup(own, g, f);
    InGroup(top, r, f);
    InGroup(own, g, g);
    InGroup(top, r, g);
    InGroup(top, r, r);
    if st.repeats != [] { assert st.repeats[0].path in r.values; }
  }

  lemma SomeKey(m: map<string, string>)
    ensures |m| > 0 <==> exists k :: k in m
  {
    if |m| > 0 {
      assert m.Keys != {} by { MapSize(m); }
      var k :| k in m.Keys;
      assert k in m;
    }
    if k :| k in m { assert k in m.Keys; MapSize(m); }
  }

  lemma InGroup(fs: seq<Fact>, g: Fact, f: Fact)
    ensures f in WithGroup(fs, g) <==> f in fs || (|g.values| > 0 && f == g)
  {
  }

  /** Everything that is due has a fact, as the settings can be read. */
  lemma DueDisclosed(ds: seq<Diagnostic>, st: Settings, i: nat)
    requires SettingsFit(st, Index(ds)) && i < |st.children| && Due(ds, st.children[i])
    ensures exists f :: f in Recorded(st, Index(ds)) && FactOf(ds, st.children[i], f)
  {
    hide Index, FactOf, Due, RootFacts, CompatFits, TopFits, Recordable, AuthoringOnly;
    TopFitsIs(ds, st.children);
    var f :| FactOf(ds, st.children[i], f);
    RootDisclosed(ds, st, f);
    RootRecorded(st, ds, f);
  }

  lemma RootRecorded(st: Settings, ds: seq<Diagnostic>, f: Fact)
    requires f in RootFacts(st, Index(ds))
    ensures f in Recorded(st, Index(ds))
  {
    hide Index, RootFacts, CompatFacts, RepeatedFact;
    var fs := RootFacts(st, Index(ds));
    CompatFactsPrefix(fs, st.compat, 0, Index(ds));
    assert st.compat[..0] == [];
    NoCompatYet(fs, Index(ds));
    InGroup(CompatFacts(fs, st.compat, Index(ds)), RepeatedFact(fs, st.compat, Index(ds)), f);
    var i :| 0 <= i < |fs| && fs[i] == f;
    assert CompatFacts(fs, st.compat, Index(ds))[i] == f;
  }

  // ------------------------------------------------------------ compatibility children

  /** An option of this name is recorded among the facts fs or before child i. */
  ghost predicate NamedBefore(fs: seq<Fact>, cs: seq<CompatChild>, i: nat, name: string)
    requires i <= |cs|
  {
    || name in KindsOf(fs)
    || exists j :: 0 <= j < i && ((cs[j].LegacyFlag? && cs[j].kind == name) || (cs[j].CompatSetting? && cs[j].name == name))
  }

  /** f is the fact of child i: its name, its path and its value. */
  ghost predicate OptionFact(ds: seq<Diagnostic>, fs: seq<Fact>, cs: seq<CompatChild>, i: nat, f: Fact)
    requires i < |cs|
  {
    match cs[i]
    case LegacyFlag(path, kind, _, _, val) => f == Fact(kind, path, if val.Some? then map["val" := val.value] else map[])
    case CompatSetting(path, _, _, name, value, _, leading) =>
      && f == Fact(name, path, map["val" := value])
      && if name == MODE then Diagnosed(ds, path) && !leading else !NamedBefore(fs, cs, i, name)
    case _ => false
  }

  lemma KindsSnoc(fs: seq<Fact>, f: Fact)
    ensures KindsOf(fs + [f]) == KindsOf(fs) + {f.kind}
  {
    var gs := fs + [f];
    assert gs[|fs|] == f;
    assert forall i :: 0 <= i < |fs| ==> gs[i] == fs[i];
    forall k | k in KindsOf(fs) ensures k in KindsOf(gs) {
      var i :| 0 <= i < |fs| && fs[i].kind == k;
      assert gs[i].kind == k;
    }
  }

  lemma {:induction false} KindsBefore(ds: seq<Diagnostic>, fs: seq<Fact>, cs: seq<CompatChild>, i: nat, name: string)
    requires i <= |cs| && name != MODE
    ensures name in KindsOf(CompatFacts(fs, cs[..i], Index(ds))) <==> NamedBefore(fs, cs, i, name)
    decreases i
  {
    hide Index, KindsOf, CompatFacts;
    if i == 0 {
      assert cs[..0] == [];
      NoCompatYet(fs, Index(ds));
    } else {
      KindsBefore(ds, fs, cs, i - 1, name);
      OneMoreChild(fs, cs, i - 1, Index(ds));
      var before, c := CompatFacts(fs, cs[..i - 1], Index(ds)), cs[i - 1];
      var own := CompatFact(c, KindsOf(before), Index(ds));
      if own.Some? { KindsSnoc(before, own.value); } else { assert before + [] == before; }
      if c.CompatSetting? && c.name == name { KindsBefore(ds, fs, cs, i - 1, c.name); }
      NamedStep(fs, cs, i, name);
    }
  }

  lemma NamedStep(fs: seq<Fact>, cs: seq<CompatChild>, i: nat, name: string)
    requires 0 < i <= |cs|
    ensures var c := cs[i - 1];
      NamedBefore(fs, cs, i, name) <==>
        NamedBefore(fs, cs, i - 1, name) || (c.LegacyFlag? && c.kind == name) || (c.CompatSetting? && c.name == name)
  {
    hide KindsOf;
  }

  lemma CompatFactIs(ds: seq<Diagnostic>, fs: seq<Fact>, cs: seq<CompatChild>, i: nat)
    requires i < |cs|
    ensures forall f :: CompatFact(cs[i], KindsOf(CompatFacts(fs, cs[..i], Index(ds))), Index(ds)) == Some(f) <==> OptionFact(ds, fs, cs, i, f)
    ensures Repeats(cs[i], KindsOf(CompatFacts(fs, cs[..i], Index(ds)))) <==>
              cs[i].CompatSetting? && cs[i].name != MODE && NamedBefore(fs, cs, i, cs[i].name)
  {
    hide Index, KindsOf, CompatFacts, NamedBefore, Diagnosed;
    IndexIs(ds, cs[i].path);
    if cs[i].CompatSetting? && cs[i].name != MODE { KindsBefore(ds, fs, cs, i, cs[i].name); }
  }

  /** The facts recorded up to child k: those before, and one for each child that has one. */
  lemma {:induction false} OptionsAre(ds: seq<Diagnostic>, fs: seq<Fact>, cs: seq<CompatChild>, k: nat, f: Fact)
    requires k <= |cs|
    ensures f in CompatFacts(fs, cs[..k], Index(ds)) <==> f in fs || exists i :: 0 <= i < k && OptionFact(ds, fs, cs, i, f)
    decreases k
  {
    hide Index, KindsOf, CompatFacts, OptionFact, CompatFact;
    if k == 0 {
      assert cs[..0] == [];
      NoCompatYet(fs, Index(ds));
    } else {
      OptionsAre(ds, fs, cs, k - 1, f);
      OneMoreChild(fs, cs, k - 1, Index(ds));
      CompatFactIs(ds, fs, cs, k - 1);
    }
  }

  /** The paths of settings of a name recorded before. */
  ghost function RepeatedPaths(fs: seq<Fact>, cs: seq<CompatChild>, k: nat): set<string>
    requires k <= |cs|
  {
    set i | 0 <= i < k && Repeated(fs, cs, i) :: cs[i].path
  }

  ghost predicate Repeated(fs: seq<Fact>, cs: seq<CompatChild>, i: nat)
    requires i < |cs|
  {
    cs[i].CompatSetting? && cs[i].name != MODE && NamedBefore(fs, cs, i, cs[i].name)
  }

  /** What a group holds for a path is name and value of a repeated setting there. */
  ghost predicate Spelled(fs: seq<Fact>, cs: seq<CompatChild>, k: nat, path: string, text: string)
    requires k <= |cs|
  {
    exists i :: 0 <= i < k && Repeated(fs, cs, i) && cs[i].path == path && text == cs[i].name + "=" + cs[i].value
  }

  lemma {:induction false} RepeatedIs(ds: seq<Diagnostic>, fs: seq<Fact>, cs: seq<CompatChild>, k: nat)
    requires k <= |cs|
    ensures var g := RepeatedFact(fs, cs[..k], Index(ds));
      && g.kind == "repeatedCompatSettings" && g.values.Keys == RepeatedPaths(fs, cs, k)
      && forall path :: path in g.values ==> Spelled(fs, cs, k, path, g.values[path])
    decreases k
  {
    hide Index, KindsOf, CompatFacts, CompatFact, RepeatedFact, NamedBefore, Repeats;
    if k == 0 {
      assert cs[..0] == [];
      NoCompatYet(fs, Index(ds));
    } else {
      RepeatedIs(ds, fs, cs, k - 1);
      OneMoreChild(fs, cs, k - 1, Index(ds));
      CompatFactIs(ds, fs, cs, k - 1);
    }
  }

  /** A compatibility child that is understood, in the terms of its own fields. */
  predicate Plain(c: CompatChild) {
    match c
    case NoColumnBalance(_) => true
    case LegacyFlag(_, _, exact, valueOk, val) => exact && (val.None? || valueOk)
    case CompatSetting(_, exact, knownUri, name, value, flag, _) =>
      exact && knownUri && if name == "compatibilityMode" then value in {"12", "14", "15"} else flag
    case Foreign(_) => false
    case Unknown(_) => false
  }

  /** Each child is understood where it stands, and no repeated one finds the group full. */
  ghost predicate Options(ds: seq<Diagnostic>, fs: seq<Fact>, cs: seq<CompatChild>) {
    forall i :: 0 <= i < |cs| ==>
      && Plain(cs[i])
      && (cs[i].NoColumnBalance? ==> forall code :: Coded(ds, cs[i].path, code) ==> code == "DUPLICATE_SETTINGS_PROPERTY")
      && (Repeated(fs, cs, i) ==> |RepeatedPaths(fs, cs, i)| < 64 && Diagnosed(ds, cs[i].path))
  }

  lemma CompatFitsIs(ds: seq<Diagnostic>, fs: seq<Fact>, cs: seq<CompatChild>)
    ensures CompatFits(fs, cs, Index(ds)) <==> Options(ds, fs, cs)
  {
    hide KindsOf, CompatFacts, CompatFact, RepeatedFact, NamedBefore, Repeats, RepeatedPaths, Index, Diagnosed, Coded;
    forall i | 0 <= i < |cs|
      ensures ChildFits(cs[i], KindsOf(CompatFacts(fs, cs[..i], Index(ds))), RepeatedFact(fs, cs[..i], Index(ds)), Index(ds)) <==>
        && Plain(cs[i])
        && (cs[i].NoColumnBalance? ==> forall code :: Coded(ds, cs[i].path, code) ==> code == "DUPLICATE_SETTINGS_PROPERTY")
        && (Repeated(fs, cs, i) ==> |RepeatedPaths(fs, cs, i)| < 64 && Diagnosed(ds, cs[i].path))
    {
      IndexIs(ds, cs[i].path);
      CodedDiagnosed(ds, cs[i].path);
      CompatFactIs(ds, fs, cs, i);
      RepeatedIs(ds, fs, cs, i);
      MapSize(RepeatedFact(fs, cs[..i], Index(ds)).values);
    }
  }

  lemma CodedDiagnosed(ds: seq<Diagnostic>, path: string)
    ensures forall code :: Coded(ds, path, code) ==> Diagnosed(ds, path)
  {
  }

  /** f is the fact in which all repeated options stand. */
  ghost predicate RepeatedOptions(fs: seq<Fact>, cs: seq<CompatChild>, f: Fact) {
    && f.kind == "repeatedCompatSettings" && f.values.Keys == RepeatedPaths(fs, cs, |cs|) != {}
    && forall path :: path in f.values ==> Spelled(fs, cs, |cs|, path, f.values[path])
  }

  /**
   * The facts of an eligible attestation, all of them: one for every child of the root that is due, one for every
   * compatibility option named for the first time, and at most three groups. Nothing else is disclosed and nothing
   * that is due is missing.
   */
  lemma FactsAre(ds: seq<Diagnostic>, st: Settings, f: Fact)
    requires SettingsFit(st, Index(ds))
    ensures var root, facts := RootFacts(st, Index(ds)), Recorded(st, Index(ds));
      && (f in facts ==>
            || (exists i :: 0 <= i < |st.children| && FactOf(ds, st.children[i], f))
            || (exists i :: 0 <= i < |st.compat| && OptionFact(ds, root, st.compat, i, f))
            || AuthoringFact(ds, st.children, f) || RepeatFact(st.repeats, f) || RepeatedOptions(root, st.compat, f))
      && ((exists i :: 0 <= i < |st.children| && FactOf(ds, st.children[i], f)) ==> f in facts)
      && ((exists i :: 0 <= i < |st.compat| && OptionFact(ds, root, st.compat, i, f)) ==> f in facts)
      && (AuthoringPaths(ds, st.children) != {} ==> exists g :: g in facts && AuthoringFact(ds, st.children, g))
      && (st.repeats != [] ==> exists g :: g in facts && RepeatFact(st.repeats, g))
      && (RepeatedPaths(root, st.compat, |st.compat|) != {} ==> exists g :: g in facts && RepeatedOptions(root, st.compat, g))
  {
    hide Index, RootFacts, CompatFacts, RepeatedFact, OptionFact, FactOf, AuthoringFact, RepeatFact, SettingsFit, AuthoringPaths, RepeatedPaths;
    var root, cs := RootFacts(st, Index(ds)), st.compat;
    var options, g := CompatFacts(root, cs, Index(ds)), RepeatedFact(root, cs, Index(ds));
    assert cs[..|cs|] == cs;
    RootDisclosed(ds, st, f);
    OptionsAre(ds, root, cs, |cs|, f);
    RepeatedIs(ds, root, cs, |cs|);
    SomeKey(g.values);
    InGroup(options, g, f);
    InGroup(options, g, g);
    RootGroups(ds, st);
  }

  lemma RootGroups(ds: seq<Diagnostic>, st: Settings)
    requires SettingsFit(st, Index(ds))
    ensures AuthoringPaths(ds, st.children) != {} ==> exists g :: g in Recorded(st, Index(ds)) && AuthoringFact(ds, st.children, g)
    ensures st.repeats != [] ==> exists g :: g in Recorded(st, Index(ds)) && RepeatFact(st.repeats, g)
  {
    hide Index, RootFacts, AuthoringFact, RepeatFact, SettingsFit, AuthoringPaths, Recorded;
    RootDisclosed(ds, st, Fact("", "", map[]));
    if AuthoringPaths(ds, st.children) != {} {
      var g :| g in RootFacts(st, Index(ds)) && AuthoringFact(ds, st.children, g);
      RootRecorded(st, ds, g);
    }
    if st.repeats != [] {
      var g :| g in RootFacts(st, Index(ds)) && RepeatFact(st.repeats, g);
      RootRecorded(st, ds, g);
    }
  }

  /** A repetition that may be passed over: it agrees with an earlier namesake, or matters to authors only. */
  predicate Harmless(r: Repeat) {
    && !r.ambiguous && r.canonical.Some? && r.summary.Some?
    && (r.authoring || exists k :: 0 <= k < |r.earlier| && r.earlier[k] == r.canonical)
  }

  /** Few repetitions, each harmless, at different paths. */
  predicate Repetitions(rs: seq<Repeat>) {
    && |rs| <= 64 && (forall i :: 0 <= i < |rs| ==> Harmless(rs[i]))
    && forall i, j :: 0 <= i < j < |rs| ==> rs[i].path != rs[j].path
  }

  /** All attestations of the mode agree. */
  predicate OneMode(cs: seq<CompatChild>) {
    forall i, j :: 0 <= i < j < |cs| && AttestsMode(cs[i]) && AttestsMode(cs[j]) ==> cs[i].value == cs[j].value
  }

  /** Few facts, each joined to a diagnostic and told apart by kind and path. */
  ghost predicate Joined(ds: seq<Diagnostic>, fs: seq<Fact>) {
    && |fs| <= 64 && (forall i :: 0 <= i < |fs| ==> Diagnosed(ds, fs[i].path))
    && forall i, j :: 0 <= i < j < |fs| ==> fs[i].kind != fs[j].kind && fs[i].path != fs[j].path
  }

  predicate AdmittedCode(code: string) {
    || code == "COMPATIBILITY_SETTING_UNSUPPORTED" || code == "PAGINATION_SETTING_UNSUPPORTED"
    || code == "UNKNOWN_SETTINGS_ELEMENT" || code == "DUPLICATE_SETTINGS_PROPERTY" || code == "CHARACTER_SPACING_CONTROL_UNSUPPORTED"
  }

  /** When an attestation is due, in the terms of the settings and their diagnostics. */
  lemma EligibleIs(ds: seq<Diagnostic>, modern: bool, st: Settings)
    ensures Eligible(ds, modern, Some(st)) <==>
      && !modern && (forall i :: 0 <= i < |ds| ==> AdmittedCode(ds[i].code))
      && Readable(ds, st.children) && Repetitions(st.repeats)
      && (st.containers == 0 || (st.containers == 1 && st.plain))
      && Options(ds, RootFacts(st, Index(ds)), st.compat) && OneMode(st.compat)
      && Joined(ds, Recorded(st, Index(ds)))
  {
    hide Index, RootFacts, Recorded, Readable, Repetitions, Options, OneMode, Joined, TopFits, CompatFits, ModesAgree, RepeatsFit, Recordable;
    TopFitsIs(ds, st.children);
    CompatFitsIs(ds, RootFacts(st, Index(ds)), st.compat);
    RepeatsFitIs(st.repeats);
    ModesAgreeIs(st.compat);
    RecordableIs(ds, Recorded(st, Index(ds)));
  }

  lemma RepeatsFitIs(rs: seq<Repeat>)
    ensures RepeatsFit(rs) <==> Repetitions(rs)
  {
    assert forall i :: 0 <= i < |rs| ==> (Admitted(rs[i]) <==> Harmless(rs[i]));
  }

  /** The mode reported: 12 where none is attested, and otherwise the one that every attestation names. */
  lemma ModeMeans(cs: seq<CompatChild>, mode: int)
    ensures AgreedMode(cs, mode) <==>
      && (mode == 12 || mode == 14 || mode == 15)
      && ((forall i :: 0 <= i < |cs| ==> !AttestsMode(cs[i])) ==> mode == 12)
      && forall i :: 0 <= i < |cs| && AttestsMode(cs[i]) ==>
           cs[i].value == if mode == 12 then "12" else if mode == 14 then "14" else "15"
  {
    var vs := ModeValues(cs);
    forall i | 0 <= i < |cs| && AttestsMode(cs[i]) ensures cs[i].value in vs {
    }
    var word := if mode == 12 then "12" else if mode == 14 then "14" else "15";
    if forall i :: 0 <= i < |cs| && AttestsMode(cs[i]) ==> cs[i].value == word {
      assert vs == {} || vs == {word};
    }
    if forall i :: 0 <= i < |cs| ==> !AttestsMode(cs[i]) {
      assert vs == {};
    } else {
      var i :| 0 <= i < |cs| && AttestsMode(cs[i]);
      assert cs[i].value in vs;
    }
    assert "12" != "14" && "12" != "15" && "14" != "15" by { assert "12"[1] != "14"[1] && "12"[1] != "15"[1] && "14"[1] != "15"[1]; }
  }

  lemma ModesAgreeIs(cs: seq<CompatChild>)
    ensures ModesAgree(cs) <==> OneMode(cs)
  {
    if ModesAgree(cs) {
      forall i, j | 0 <= i < j < |cs| && AttestsMode(cs[i]) && AttestsMode(cs[j]) ensures cs[i].value == cs[j].value {
        assert cs[i].value in ModeValues(cs) && cs[j].value in ModeValues(cs);
      }
    }
  }

  lemma RecordableIs(ds: seq<Diagnostic>, fs: seq<Fact>)
    ensures Recordable(fs, Index(ds)) <==> Joined(ds, fs)
  {
    hide Index, Diagnosed;
    forall i | 0 <= i < |fs| ensures fs[i].path in Index(ds) <==> Diagnosed(ds, fs[i].path) { IndexIs(ds, fs[i].path); }
  }

  // --------------------------------------------------------------- where groups stand

  /** A group stands at the path of its first member. */
  lemma {:induction false} AuthoringStands(ds: seq<Diagnostic>, cs: seq<Setting>, i: nat)
    requires i < |cs| && AuthoringOnly(ds, cs[i]) && cs[i].summary.Some? && cs[i].path != ""
    requires AuthoringPaths(ds, cs[..i]) == {}
    ensures Group(cs, Index(ds)).path == cs[i].path
    decreases |cs|
  {
    hide Index, Group, Grouped, AuthoringOnly, AuthoringPaths;
    var n := |cs| - 1;
    assert cs[..n + 1] == cs;
    OneMoreSetting(cs, n, Index(ds));
    OwnFactIs(ds, cs[n]);
    if i < n {
      assert cs[..n][..i] == cs[..i];
      AuthoringStands(ds, cs[..n], i);
    } else {
      GroupIs(ds, cs[..n]);
      MapSize(Group(cs[..n], Index(ds)).values);
    }
  }

  lemma {:induction false} RepetitionsStand(rs: seq<Repeat>)
    requires RepeatsFit(rs) && rs != [] && rs[0].path != ""
    ensures RepeatGroup(rs).path == rs[0].path
    decreases |rs|
  {
    hide RepeatGroup, Admitted;
    var n := |rs| - 1;
    assert rs[..n + 1] == rs;
    OneMoreRepeat(rs, n);
    assert Admitted(rs[n]);
    AdmittedSummary(rs[n]);
    if n > 0 { RepetitionsStand(rs[..n]); } else { assert rs[..0] == []; NoRepeatsYet(); }
  }

  lemma {:induction false} RepeatedStand(ds: seq<Diagnostic>, fs: seq<Fact>, cs: seq<CompatChild>, i: nat, k: nat)
    requires i < k <= |cs| && Repeated(fs, cs, i) && RepeatedPaths(fs, cs, i) == {} && cs[i].path != ""
    ensures RepeatedFact(fs, cs[..k], Index(ds)).path == cs[i].path
    decreases k
  {
    hide Index, KindsOf, CompatFacts, CompatFact, RepeatedFact, Repeats, Repeated, RepeatedPaths;
    OneMoreChild(fs, cs, k - 1, Index(ds));
    CompatFactIs(ds, fs, cs, k - 1);
    RepeatedMeans(fs, cs, k - 1);
    if i < k - 1 {
      RepeatedStand(ds, fs, cs, i, k - 1);
    } else {
      RepeatedIs(ds, fs, cs, i);
      NoneRepeated(ds, fs, cs, i);
    }
  }

  lemma RepeatedMeans(fs: seq<Fact>, cs: seq<CompatChild>, i: nat)
    requires i < |cs|
    ensures Repeated(fs, cs, i) <==> cs[i].CompatSetting? && cs[i].name != MODE && NamedBefore(fs, cs, i, cs[i].name)
  {
  }

  lemma {:induction false} NoneRepeated(ds: seq<Diagnostic>, fs: seq<Fact>, cs: seq<CompatChild>, k: nat)
    requires k <= |cs| && RepeatedPaths(fs, cs, k) == {}
    ensures RepeatedFact(fs, cs[..k], Index(ds)).path == ""
    decreases k
  {
    hide Index, KindsOf, CompatFacts, CompatFact, RepeatedFact, Repeats, Repeated;
    if k == 0 {
      assert cs[..0] == [];
      NoCompatYet(fs, Index(ds));
    } else {
      assert forall i :: 0 <= i < k && Repeated(fs, cs, i) ==> cs[i].path in RepeatedPaths(fs, cs, k);
      assert RepeatedPaths(fs, cs, k - 1) == {};
      NoneRepeated(ds, fs, cs, k - 1);
      OneMoreChild(fs, cs, k - 1, Index(ds));
      CompatFactIs(ds, fs, cs, k - 1);
      RepeatedMeans(fs, cs, k - 1);
    }
  }
}
