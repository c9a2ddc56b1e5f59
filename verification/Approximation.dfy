/** Approximate layout: typed facts, all kept or all dropped. */
module Approximation {
  import opened Prelude

  const MAX_FACTS := 64
  const MAX_GROUP := 64
  const MODE := "compatibilityMode"

  const COMPAT := "COMPATIBILITY_SETTING_UNSUPPORTED"
  const PAGINATION := "PAGINATION_SETTING_UNSUPPORTED"
  const UNKNOWN_ELEMENT := "UNKNOWN_SETTINGS_ELEMENT"
  const DUPLICATE := "DUPLICATE_SETTINGS_PROPERTY"
  const SPACING := "CHARACTER_SPACING_CONTROL_UNSUPPORTED"
  const ADMITTED: set<string> := {COMPAT, PAGINATION, UNKNOWN_ELEMENT, DUPLICATE, SPACING}

  datatype Fact = Fact(kind: string, path: string, values: map<string, string>)

  datatype Diagnostic = Diagnostic(code: string, path: string, message: string)

  const FACT_PREFIX := "Current-layout approximation "
  const REFUSED := "Approximate eligibility refused: "

  /** The disclosure of a fact; only its opening and what it names matter here. */
  function ReasonOf(f: Fact): string {
    FACT_PREFIX + f.kind + " at " + f.path
  }

  function Reasons(fs: seq<Fact>): seq<string> {
    if fs == [] then [] else Reasons(fs[..|fs| - 1]) + [ReasonOf(fs[|fs| - 1])]
  }

  predicate Discloses(reason: string) {
    FACT_PREFIX <= reason
  }

  predicate NoneDiscloses(reasons: seq<string>) {
    forall i :: 0 <= i < |reasons| ==> !Discloses(reasons[i])
  }

  predicate DistinctFacts(fs: seq<Fact>) {
    forall i, j :: 0 <= i < j < |fs| ==> fs[i].kind != fs[j].kind && fs[i].path != fs[j].path
  }

  function KindsOf(fs: seq<Fact>): set<string> {
    set i | 0 <= i < |fs| :: fs[i].kind
  }

  function PathsOf(fs: seq<Fact>): set<string> {
    set i | 0 <= i < |fs| :: fs[i].path
  }

  predicate AllJoined(fs: seq<Fact>, diagnosed: map<string, set<string>>) {
    forall i :: 0 <= i < |fs| ==> fs[i].path in diagnosed
  }

  /** Facts that may stand in one attestation: few enough, told apart by kind and path, each joined to a diagnostic. */
  predicate Recordable(fs: seq<Fact>, diagnosed: map<string, set<string>>) {
    DistinctFacts(fs) && |fs| <= MAX_FACTS && AllJoined(fs, diagnosed)
  }

  // ------------------------------------------------------------------- the settings

  /** A child of the settings root as the builder reads it; what could not be read exactly is absent. */
  datatype Setting = Setting(
    path: string, local: string, word: bool, extra: Option<map<string, string>>, hyphenation: Option<map<string, string>>,
    spacing: Option<string>, authoring: bool, summary: Option<string>)

  /** A setting diagnosed as a duplicate, with the canonical forms of its earlier namesakes. */
  datatype Repeat = Repeat(path: string, ambiguous: bool, canonical: Option<string>, earlier: seq<Option<string>>, authoring: bool, summary: Option<string>)

  datatype CompatChild =
    | NoColumnBalance(path: string)
    | LegacyFlag(path: string, kind: string, exact: bool, valueOk: bool, val: Option<string>)
    | CompatSetting(path: string, exact: bool, knownUri: bool, name: string, value: string, flag: bool, leading: bool)
    | Foreign(path: string)
    | Unknown(path: string)

  datatype Settings = Settings(children: seq<Setting>, repeats: seq<Repeat>, containers: nat, plain: bool, compat: seq<CompatChild>)

  // ----------------------------------------------------------------- what is recorded

  /** The fact a setting contributes by itself. */
  function OwnFact(s: Setting, diagnosed: map<string, set<string>>): Option<Fact> {
    if s.path !in diagnosed || DUPLICATE in diagnosed[s.path] then None
    else if s.extra.Some? then Some(Fact(s.local, s.path, s.extra.value))
    else if !s.word then None
    else if Hyphenation(s, diagnosed[s.path]) then
      if s.hyphenation.Some? then Some(Fact("autoHyphenation", s.path, s.hyphenation.value)) else None
    else if CharacterSpacing(s, diagnosed[s.path]) && s.spacing.Some? then
      Some(Fact("characterSpacingControl", s.path, map["val" := s.spacing.value]))
    else None
  }

  function OwnFacts(ss: seq<Setting>, diagnosed: map<string, set<string>>): seq<Fact> {
    if ss == [] then []
    else
      var f := OwnFact(ss[|ss| - 1], diagnosed);
      OwnFacts(ss[..|ss| - 1], diagnosed) + if f.Some? then [f.value] else []
  }

  /** A diagnosed setting that is looked at by name. */
  predicate Named(s: Setting, diagnosed: map<string, set<string>>) {
    s.path in diagnosed && DUPLICATE !in diagnosed[s.path] && s.extra.None? && s.word
  }

  predicate Hyphenation(s: Setting, codes: set<string>) {
    s.local == "autoHyphenation" && PAGINATION in codes
  }

  predicate CharacterSpacing(s: Setting, codes: set<string>) {
    s.local == "characterSpacingControl" && SPACING in codes
  }

  /** Authoring-only settings share one fact. */
  predicate Grouped(s: Setting, diagnosed: map<string, set<string>>) {
    && Named(s, diagnosed)
    && !Hyphenation(s, diagnosed[s.path]) && !CharacterSpacing(s, diagnosed[s.path])
    && s.authoring && PAGINATION in diagnosed[s.path]
  }

  /** A setting that would have to be disclosed but cannot be read exactly. */
  predicate Unreadable(s: Setting, diagnosed: map<string, set<string>>) {
    && Named(s, diagnosed)
    && if Hyphenation(s, diagnosed[s.path]) then s.hyphenation.None?
       else if CharacterSpacing(s, diagnosed[s.path]) then s.spacing.None?
       else Grouped(s, diagnosed) && s.summary.None?
  }

  function Group(ss: seq<Setting>, diagnosed: map<string, set<string>>): Fact {
    if ss == [] then Fact("authoringSettings", "", map[])
    else
      var g, s := Group(ss[..|ss| - 1], diagnosed), ss[|ss| - 1];
      if Grouped(s, diagnosed) && s.summary.Some? then
        g.(path := if g.path == "" then s.path else g.path, values := g.values[s.path := s.summary.value])
      else g
  }

  function WithGroup(fs: seq<Fact>, g: Fact): seq<Fact> {
    if |g.values| > 0 then fs + [g] else fs
  }

  /** Every setting is read exactly, and the group of authoring-only ones stays bounded. */
  predicate TopFits(ss: seq<Setting>, diagnosed: map<string, set<string>>) {
    forall i :: 0 <= i < |ss| ==>
      !Unreadable(ss[i], diagnosed) && (Grouped(ss[i], diagnosed) ==> |Group(ss[..i], diagnosed).values| < MAX_GROUP)
  }

  function Optional(f: Option<Fact>): seq<Fact> {
    if f.Some? then [f.value] else []
  }

  /** What a compatibility child adds, given the kinds recorded before it. */
  function CompatFact(c: CompatChild, kinds: set<string>, diagnosed: map<string, set<string>>): Option<Fact> {
    match c
    case LegacyFlag(path, kind, _, _, val) => Some(Fact(kind, path, if val.Some? then map["val" := val.value] else map[]))
    case CompatSetting(path, _, _, name, value, _, leading) =>
      if name == MODE then
        if path in diagnosed && !leading then Some(Fact(MODE, path, map["val" := value])) else None
      else if name in kinds then None
      else Some(Fact(name, path, map["val" := value]))
    case _ => None
  }

  predicate Repeats(c: CompatChild, kinds: set<string>) {
    c.CompatSetting? && c.name != MODE && c.name in kinds
  }

  function CompatFacts(fs: seq<Fact>, cs: seq<CompatChild>, diagnosed: map<string, set<string>>): seq<Fact> {
    if cs == [] then fs
    else
      var before := CompatFacts(fs, cs[..|cs| - 1], diagnosed);
      before + Optional(CompatFact(cs[|cs| - 1], KindsOf(before), diagnosed))
  }

  /** Settings named before share one fact. */
  function RepeatedFact(fs: seq<Fact>, cs: seq<CompatChild>, diagnosed: map<string, set<string>>): Fact {
    if cs == [] then Fact("repeatedCompatSettings", "", map[])
    else
      var init, c := cs[..|cs| - 1], cs[|cs| - 1];
      JoinGroup(RepeatedFact(fs, init, diagnosed), c, KindsOf(CompatFacts(fs, init, diagnosed)))
  }

  function JoinGroup(g: Fact, c: CompatChild, kinds: set<string>): Fact {
    if Repeats(c, kinds) then
      g.(path := if g.path == "" then c.path else g.path, values := g.values[c.path := c.name + "=" + c.value])
    else g
  }

  /** A child that is understood where it stands. */
  predicate ChildFits(c: CompatChild, kinds: set<string>, group: Fact, diagnosed: map<string, set<string>>) {
    && Understood(c)
    && (c.NoColumnBalance? && c.path in diagnosed ==> diagnosed[c.path] <= {DUPLICATE})
    && (Repeats(c, kinds) ==> |group.values| < MAX_GROUP && c.path in diagnosed)
  }

  predicate CompatFits(fs: seq<Fact>, cs: seq<CompatChild>, diagnosed: map<string, set<string>>) {
    forall i :: 0 <= i < |cs| ==>
      ChildFits(cs[i], KindsOf(CompatFacts(fs, cs[..i], diagnosed)), RepeatedFact(fs, cs[..i], diagnosed), diagnosed)
  }

  /** The facts of the settings root and of the duplicates. */
  function RootFacts(st: Settings, diagnosed: map<string, set<string>>): seq<Fact> {
    WithGroup(WithGroup(OwnFacts(st.children, diagnosed), Group(st.children, diagnosed)), RepeatGroup(st.repeats))
  }

  function Recorded(st: Settings, diagnosed: map<string, set<string>>): seq<Fact> {
    var fs := RootFacts(st, diagnosed);
    WithGroup(CompatFacts(fs, st.compat, diagnosed), RepeatedFact(fs, st.compat, diagnosed))
  }

  /** Settings whose deviations can all be named. */
  predicate SettingsFit(st: Settings, diagnosed: map<string, set<string>>) {
    && TopFits(st.children, diagnosed) && RepeatsFit(st.repeats)
    && st.containers <= 1 && (st.containers == 1 ==> st.plain)
    && CompatFits(RootFacts(st, diagnosed), st.compat, diagnosed) && ModesAgree(st.compat)
    && Recordable(Recorded(st, diagnosed), diagnosed)
  }

  // --------------------------------------------------------------------- the mode

  function ModeValues(cs: seq<CompatChild>): set<string> {
    set i | 0 <= i < |cs| && cs[i].CompatSetting? && cs[i].name == MODE :: cs[i].value
  }

  predicate ModesAgree(cs: seq<CompatChild>) {
    forall v, w :: v in ModeValues(cs) && w in ModeValues(cs) ==> v == w
  }

  predicate AgreedMode(cs: seq<CompatChild>, mode: int) {
    || (ModeValues(cs) == {} && mode == 12)
    || (ModeValues(cs) == {"12"} && mode == 12)
    || (ModeValues(cs) == {"14"} && mode == 14)
    || (ModeValues(cs) == {"15"} && mode == 15)
  }

  /** The mode depends on which attestations there are, not on their order or number. */
  lemma ModeIgnoresOrder(a: seq<CompatChild>, b: seq<CompatChild>, m: int, n: int)
    requires (forall c :: c in a <==> c in b) && AgreedMode(a, m) && AgreedMode(b, n)
    ensures m == n
  {
    forall v ensures v in ModeValues(a) <==> v in ModeValues(b) {
      if v in ModeValues(a) {
        var i :| 0 <= i < |a| && a[i].CompatSetting? && a[i].name == MODE && a[i].value == v;
        assert a[i] in b;
      }
      if v in ModeValues(b) {
        var i :| 0 <= i < |b| && b[i].CompatSetting? && b[i].name == MODE && b[i].value == v;
        assert b[i] in a;
      }
    }
    assert ModeValues(a) == ModeValues(b);
    assert "12" != "14" && "12" != "15" && "14" != "15";
  }

  // ------------------------------------------------------------------ the builder

  lemma RefusalDoesNotDisclose(detail: string)
    ensures !Discloses(REFUSED + detail)
  {
    assert (REFUSED + detail)[0] == 'A' && FACT_PREFIX[0] == 'C';
  }

  lemma {:induction false} ReasonsDisclose(fs: seq<Fact>)
    ensures |Reasons(fs)| == |fs| && forall i :: 0 <= i < |fs| ==> Reasons(fs)[i] == ReasonOf(fs[i])
  {
    if fs == [] {
    } else {
      ReasonsDisclose(fs[..|fs| - 1]);
    }
  }

  class Builder {
    var facts: seq<Fact>
    var reasons: seq<string>
    var kinds: set<string>
    var paths: set<string>
    const diagnosed: map<string, set<string>>
    ghost const base: seq<string>

    /** Nothing refused so far. */
    ghost predicate Live()
      reads this
    {
      && NoneDiscloses(base)
      && reasons == base + Reasons(facts)
      && kinds == KindsOf(facts) && paths == PathsOf(facts)
      && Recordable(facts, diagnosed)
    }

    /** Refused: no fact is left, and of the reasons only the base and the cause. */
    ghost predicate Refused()
      reads this
    {
      facts == [] && exists detail: string {:trigger Cause(detail)} :: reasons == base + [Cause(detail)]
    }

    constructor (diagnosed: map<string, set<string>>, reasons: seq<string>)
      requires NoneDiscloses(reasons)
      ensures Live() && this.diagnosed == diagnosed && base == reasons && facts == []
    {
      this.diagnosed := diagnosed;
      this.reasons := reasons;
      facts, kinds, paths := [], {}, {};
      base := reasons;
    }

    method Refuse(detail: string) returns (ok: bool)
      requires Live()
      modifies this
      ensures !ok && Refused() && reasons == base + [REFUSED + detail]
    {
      var dropped: set<string> := {};
      for i := 0 to |facts|
        invariant dropped == set j | 0 <= j < i :: ReasonOf(facts[j])
        invariant unchanged(this)
      {
        dropped := dropped + {ReasonOf(facts[i])};
      }
      ReasonsDisclose(facts);
      var kept: seq<string> := [];
      for i := 0 to |reasons|
        invariant kept == reasons[..Min(i, |base|)]
        invariant unchanged(this)
      {
        if i < |base| {
          assert reasons[i] == base[i] && !Discloses(base[i]);
          assert reasons[i] !in dropped;
        } else {
          assert reasons[i] == ReasonOf(facts[i - |base|]);
        }
        if reasons[i] !in dropped {
          kept := kept + [reasons[i]];
        }
      }
      assert kept == base;
      reasons := kept + [REFUSED + detail];
      facts := [];
      assert Cause(detail) == REFUSED + detail;
      return false;
    }

    method Add(fact: Fact) returns (ok: bool)
      requires Live()
      modifies this
      ensures ok <==> Recordable(old(facts) + [fact], diagnosed)
      ensures ok ==> Live() && facts == old(facts) + [fact]
      ensures !ok ==> Refused()
    {
      OneMoreFact(facts, fact, diagnosed);
      hide KindsOf, PathsOf, DistinctFacts, Reasons, AllJoined, NoneDiscloses, ReasonOf, Refused;
      if fact.path !in diagnosed {
        ok := Refuse("typed fact has no strict diagnostic to join");
        return;
      }
      if fact.kind in kinds || fact.path in paths {
        ok := Refuse("typed fact repeats an already recorded kind or path");
        return;
      }
      if |facts| >= MAX_FACTS {
        ok := Refuse("more typed settings facts would be required");
        return;
      }
      Extended(facts, fact);
      assert base + Reasons(facts) + [ReasonOf(fact)] == base + (Reasons(facts) + [ReasonOf(fact)]);
      kinds, paths := kinds + {fact.kind}, paths + {fact.path};
      facts := facts + [fact];
      reasons := reasons + [ReasonOf(fact)];
      ok := true;
    }

    /** A group is recorded when it has members. */
    method AddGroup(group: Fact) returns (ok: bool)
      requires Live()
      modifies this
      ensures ok <==> Recordable(WithGroup(old(facts), group), diagnosed)
      ensures ok ==> Live() && facts == WithGroup(old(facts), group)
      ensures !ok ==> Refused()
    {
      hide Recordable, Refused;
      ok := true;
      if |group.values| > 0 {
        ok := Add(group);
      } else {
        LiveIsRecordable();
      }
    }

    lemma LiveIsRecordable()
      requires Live()
      ensures Recordable(facts, diagnosed)
    {
    }

    /** Children of the settings root: each its own fact, the authoring-only ones together in a last one. */
    method TopLevel(children: seq<Setting>) returns (ok: bool)
      requires Live()
      modifies this
      ensures ok <==>
                && TopFits(children, diagnosed)
                && Recordable(WithGroup(old(facts) + OwnFacts(children, diagnosed), Group(children, diagnosed)), diagnosed)
      ensures ok ==> Live() && facts == WithGroup(old(facts) + OwnFacts(children, diagnosed), Group(children, diagnosed))
      ensures !ok ==> Refused()
    {
      hide Live, Refused, OwnFact, Grouped, Unreadable, Recordable, OwnFacts, Group;
      ghost var first := facts;
      var authoring := Fact("authoringSettings", "", map[]);
      NoSettingsYet(diagnosed);
      assert first + [] == first;
      assert children[..0] == [];
      for i := 0 to |children|
        invariant Live() && facts == first + OwnFacts(children[..i], diagnosed)
        invariant authoring == Group(children[..i], diagnosed)
        invariant forall j :: 0 <= j < i ==>
          !Unreadable(children[j], diagnosed) && (Grouped(children[j], diagnosed) ==> |Group(children[..j], diagnosed).values| < MAX_GROUP)
      {
        OneMoreSetting(children, i, diagnosed);
        var child := children[i];
        if Unreadable(child, diagnosed) {
          ok := Refuse("setting is not an exact leaf");
          return;
        }
        var own := OwnFact(child, diagnosed);
        OneWay(child, diagnosed);
        if own.Some? {
          Regroup(first, OwnFacts(children[..i], diagnosed), own.value);
          ok := Add(own.value);
          if !ok {
            TopPrefix(first, children, i + 1, diagnosed);
            return;
          }
        } else if Grouped(child, diagnosed) {
          if |authoring.values| >= MAX_GROUP {
            ok := Refuse("more than 64 authoring-only settings");
            return;
          }
          authoring := authoring.(path := if authoring.path == "" then child.path else authoring.path,
                                  values := authoring.values[child.path := child.summary.value]);
        }
      }
      assert children[..|children|] == children;
      ok := AddGroup(authoring);
    }

    /** Duplicates are admitted together, each agreeing with an earlier namesake or authoring-only. */
    method Duplicates(repeats: seq<Repeat>) returns (ok: bool)
      requires Live()
      modifies this
      ensures ok <==> RepeatsFit(repeats) && Recordable(WithGroup(old(facts), RepeatGroup(repeats)), diagnosed)
      ensures ok ==> Live() && facts == WithGroup(old(facts), RepeatGroup(repeats))
      ensures !ok ==> Refused()
    {
      hide Live, Refused, Recordable, RepeatGroup, Admitted, RepeatsFit;
      var group := Fact("duplicateSettings", "", map[]);
      NoRepeatsYet();
      for i := 0 to |repeats|
        invariant Live() && facts == old(facts) && group == RepeatGroup(repeats[..i])
        invariant RepeatsFit(repeats[..i])
      {
        OneMoreRepeat(repeats, i);
        RepeatFits(repeats, i);
        var r := repeats[i];
        var problem := WhyNot(r);
        if problem.Some? {
          ok := Refuse(problem.value);
          return;
        }
        if r.path in group.values || |group.values| >= MAX_GROUP {
          ok := Refuse("duplicate settings exceed the bounded group");
          return;
        }
        group := group.(path := if group.path == "" then r.path else group.path, values := group.values[r.path := r.summary.value]);
      }
      assert repeats[..|repeats|] == repeats;
      ok := AddGroup(group);
    }

    /** One compatibility child. */
    method CompatStep(child: CompatChild, modeValue: string, repeated: Fact) returns (ok: bool, modeValue': string, repeated': Fact)
      requires Live()
      modifies this
      ensures ok <==>
                && ChildFits(child, KindsOf(old(facts)), repeated, diagnosed)
                && (AttestsMode(child) && modeValue != "" ==> child.value == modeValue)
                && Recordable(old(facts) + Optional(CompatFact(child, KindsOf(old(facts)), diagnosed)), diagnosed)
      ensures ok ==> Live() && facts == old(facts) + Optional(CompatFact(child, KindsOf(old(facts)), diagnosed))
      ensures ok ==> repeated' == JoinGroup(repeated, child, KindsOf(old(facts)))
      ensures ok ==> modeValue' == if AttestsMode(child) then child.value else modeValue
      ensures !ok ==> Refused()
    {
      hide Live, Refused, Recordable, KindsOf, Understood;
      modeValue', repeated' := modeValue, repeated;
      ghost var first := facts;
      LiveIsRecordable();
      KindsAreRecorded();
      assert first + [] == first;
      if !Understood(child) {
        ok := Refuse("compat markup is not understood");
        return;
      }
      ok := true;
      match child
      case NoColumnBalance(path) =>
        if path in diagnosed && diagnosed[path] - {DUPLICATE} != {} {
          ok := Refuse("noColumnBalance is not an exact value leaf");
          return;
        }
      case LegacyFlag(path, kind, _, _, val) =>
        ok := Add(Fact(kind, path, if val.Some? then map["val" := val.value] else map[]));
      case CompatSetting(path, _, _, name, value, _, leading) =>
        if name == MODE {
          if modeValue != "" && modeValue != value {
            ok := Refuse("compatibilityMode attestations disagree");
            return;
          }
          modeValue' := value;
          if path in diagnosed && !leading {
            ok := Add(Fact(MODE, path, map["val" := value]));
          }
        } else if name in kinds {
          if |repeated.values| >= MAX_GROUP {
            ok := Refuse("more than 64 repeated compatSetting attestations");
            return;
          }
          if path !in diagnosed {
            ok := Refuse("repeated compatSetting has no strict diagnostic to join");
            return;
          }
          repeated' := repeated.(path := if repeated.path == "" then path else repeated.path,
                                 values := repeated.values[path := name + "=" + value]);
        } else {
          ok := Add(Fact(name, path, map["val" := value]));
        }
      case _ =>
    }

    lemma KindsAreRecorded()
      requires Live()
      ensures kinds == KindsOf(facts)
    {
    }

    /** Compatibility children: the mode from agreeing attestations, everything else a fact that is not applied. */
    method Compat(containers: nat, plain: bool, children: seq<CompatChild>) returns (ok: bool, mode: int)
      requires Live() && (containers == 0 ==> children == [])
      modifies this
      ensures ok <==>
                && containers <= 1 && (containers == 1 ==> plain)
                && CompatFits(old(facts), children, diagnosed) && ModesAgree(children)
                && Recordable(WithGroup(CompatFacts(old(facts), children, diagnosed), RepeatedFact(old(facts), children, diagnosed)), diagnosed)
      ensures ok ==> Live() && AgreedMode(children, mode)
      ensures ok ==> facts == WithGroup(CompatFacts(old(facts), children, diagnosed), RepeatedFact(old(facts), children, diagnosed))
      ensures !ok ==> Refused()
    {
      hide Live, Refused, ModeValues, Recordable, ChildFits, KindsOf, CompatFacts, RepeatedFact, CompatFact, Repeats, JoinGroup, WithGroup, Understood;
      ghost var first := facts;
      mode := 12;
      NoCompatYet(first, diagnosed);
      if containers > 1 {
        ok := Refuse("repeated w:compat containers are ambiguous");
        return;
      }
      if containers == 0 {
        LiveIsRecordable();
        return true, 12;
      }
      if !plain {
        ok := Refuse("w:compat carries unexpected attributes or text");
        return;
      }
      var modeValue := "";
      var repeated := Fact("repeatedCompatSettings", "", map[]);
      assert children[..0] == [];
      for i := 0 to |children|
        invariant Live() && facts == CompatFacts(first, children[..i], diagnosed)
        invariant repeated == RepeatedFact(first, children[..i], diagnosed)
        invariant forall j :: 0 <= j < i ==>
          ChildFits(children[j], KindsOf(CompatFacts(first, children[..j], diagnosed)), RepeatedFact(first, children[..j], diagnosed), diagnosed)
        invariant ModeValues(children[..i]) == if modeValue == "" then {} else {modeValue}
        invariant modeValue == "" || modeValue == "12" || modeValue == "14" || modeValue == "15"
      {
        OneMoreChild(first, children, i, diagnosed);
        var child := children[i];
        var step, next, group := CompatStep(child, modeValue, repeated);
        if !step {
          ChildRefused(first, children, i, diagnosed, modeValue);
          return false, mode;
        }
        FittingMode(child, KindsOf(CompatFacts(first, children[..i], diagnosed)), RepeatedFact(first, children[..i], diagnosed), diagnosed);
        modeValue, repeated := next, group;
      }
      assert children[..|children|] == children;
      ok := AddGroup(repeated);
      mode := if modeValue == "14" then 14 else if modeValue == "15" then 15 else 12;
    }
  }

  function Cause(detail: string): string {
    REFUSED + detail
  }

  predicate Admitted(r: Repeat) {
    !r.ambiguous && r.canonical.Some? && r.summary.Some? && (r.authoring || r.canonical in r.earlier)
  }

  predicate AttestsMode(c: CompatChild) {
    c.CompatSetting? && c.name == MODE
  }

  predicate RepeatsFit(rs: seq<Repeat>) {
    && |rs| <= MAX_GROUP
    && (forall i :: 0 <= i < |rs| ==> Admitted(rs[i]))
    && forall i, j :: 0 <= i < j < |rs| ==> rs[i].path != rs[j].path
  }

  /** Why a duplicate may not be passed over, the first cause first. */
  method WhyNot(r: Repeat) returns (problem: Option<string>)
    ensures problem.None? <==> Admitted(r)
    ensures problem.None? ==> r.summary.Some?
  {
    if r.ambiguous {
      return Some("duplicate setting is ambiguous");
    }
    if r.canonical == None {
      return Some("duplicate setting exceeds the bounded comparison size");
    }
    var agrees := Agrees(r);
    if !agrees && !r.authoring {
      return Some("duplicate setting disagrees with its first occurrence");
    }
    if r.summary == None {
      return Some("duplicate setting has unbounded attributes");
    }
    return None;
  }

  /** An earlier namesake with the same canonical form. */
  method Agrees(r: Repeat) returns (agrees: bool)
    ensures agrees <==> r.canonical in r.earlier
  {
    for k := 0 to |r.earlier|
      invariant r.canonical !in r.earlier[..k]
    {
      if r.earlier[k] == r.canonical {
        return true;
      }
    }
    assert r.earlier[..|r.earlier|] == r.earlier;
    return false;
  }

  function RepeatGroup(rs: seq<Repeat>): Fact {
    if rs == [] then Fact("duplicateSettings", "", map[])
    else
      var g, r := RepeatGroup(rs[..|rs| - 1]), rs[|rs| - 1];
      if r.summary.Some? then
        g.(path := if g.path == "" then r.path else g.path, values := g.values[r.path := r.summary.value])
      else g
  }

  /** Compatibility markup with an exact form and a recorded value. */
  predicate Understood(c: CompatChild) {
    match c
    case NoColumnBalance(_) => true
    case LegacyFlag(_, _, exact, valueOk, val) => exact && (val.Some? ==> valueOk)
    case CompatSetting(_, exact, knownUri, name, value, flag, _) =>
      exact && knownUri && if name == MODE then value == "12" || value == "14" || value == "15" else flag
    case Foreign(_) => false
    case Unknown(_) => false
  }

  // ----------------------------------------------------------------- loop steps

  lemma Snoc<T>(s: seq<T>, i: nat)
    requires i < |s|
    ensures s[..i + 1][..|s[..i + 1]| - 1] == s[..i] && s[..i + 1][|s[..i + 1]| - 1] == s[i]
  {
  }

  lemma Regroup(a: seq<Fact>, b: seq<Fact>, f: Fact)
    ensures (a + b) + [f] == a + (b + [f])
  {
  }

  /** A setting that is read exactly either has a fact of its own, or joins the group, or is not disclosed. */
  lemma OneWay(s: Setting, diagnosed: map<string, set<string>>)
    requires !Unreadable(s, diagnosed)
    ensures OwnFact(s, diagnosed).Some? ==> !Grouped(s, diagnosed)
    ensures Grouped(s, diagnosed) ==> s.summary.Some?
  {
  }

  lemma OneMoreFact(fs: seq<Fact>, f: Fact, diagnosed: map<string, set<string>>)
    requires Recordable(fs, diagnosed)
    ensures Recordable(fs + [f], diagnosed) <==>
              f.path in diagnosed && f.kind !in KindsOf(fs) && f.path !in PathsOf(fs) && |fs| < MAX_FACTS
  {
    var gs := fs + [f];
    assert gs[|fs|] == f;
    assert forall i :: 0 <= i < |fs| ==> gs[i] == fs[i] && fs[i].kind in KindsOf(fs) && fs[i].path in PathsOf(fs);
  }

  lemma Extended(facts: seq<Fact>, fact: Fact)
    ensures var fs := facts + [fact];
      KindsOf(facts) + {fact.kind} == KindsOf(fs) && PathsOf(facts) + {fact.path} == PathsOf(fs)
      && Reasons(fs) == Reasons(facts) + [ReasonOf(fact)]
  {
    var fs := facts + [fact];
    forall i | 0 <= i < |facts| ensures fs[i] == facts[i] && fs[i].kind in KindsOf(facts) && fs[i].path in PathsOf(facts) {
    }
    assert fs[|facts|] == fact;
    assert fs[..|fs| - 1] == facts;
  }

  /** What does not fit cannot be mended by recording more. */
  lemma RecordablePrefix(a: seq<Fact>, b: seq<Fact>, diagnosed: map<string, set<string>>)
    requires a <= b && Recordable(b, diagnosed)
    ensures Recordable(a, diagnosed)
  {
    assert forall i :: 0 <= i < |a| ==> a[i] == b[i];
  }

  lemma NoSettingsYet(diagnosed: map<string, set<string>>)
    ensures OwnFacts([], diagnosed) == [] && Group([], diagnosed) == Fact("authoringSettings", "", map[])
  {
  }

  lemma OneMoreSetting(ss: seq<Setting>, i: nat, diagnosed: map<string, set<string>>)
    requires i < |ss|
    ensures OwnFacts(ss[..i + 1], diagnosed) == OwnFacts(ss[..i], diagnosed) + Optional(OwnFact(ss[i], diagnosed))
    ensures var g, s := Group(ss[..i], diagnosed), ss[i];
      Group(ss[..i + 1], diagnosed) ==
        if Grouped(s, diagnosed) && s.summary.Some? then
          g.(path := if g.path == "" then s.path else g.path, values := g.values[s.path := s.summary.value])
        else g
  {
    hide OwnFact, Grouped;
    Snoc(ss, i);
  }

  lemma {:induction false} OwnFactsPrefix(ss: seq<Setting>, k: nat, diagnosed: map<string, set<string>>)
    requires k <= |ss|
    ensures OwnFacts(ss[..k], diagnosed) <= OwnFacts(ss, diagnosed)
    decreases |ss|
  {
    hide OwnFact;
    if k == |ss| {
      assert ss[..k] == ss;
    } else {
      var init := ss[..|ss| - 1];
      OwnFactsPrefix(init, k, diagnosed);
      assert init[..k] == ss[..k];
    }
  }

  lemma TopPrefix(first: seq<Fact>, ss: seq<Setting>, k: nat, diagnosed: map<string, set<string>>)
    requires k <= |ss| && !Recordable(first + OwnFacts(ss[..k], diagnosed), diagnosed)
    ensures !Recordable(WithGroup(first + OwnFacts(ss, diagnosed), Group(ss, diagnosed)), diagnosed)
  {
    hide Recordable, OwnFacts, Group;
    OwnFactsPrefix(ss, k, diagnosed);
    var all := WithGroup(first + OwnFacts(ss, diagnosed), Group(ss, diagnosed));
    if Recordable(all, diagnosed) { RecordablePrefix(first + OwnFacts(ss[..k], diagnosed), all, diagnosed); }
  }

  lemma NoRepeatsYet()
    ensures RepeatGroup([]) == Fact("duplicateSettings", "", map[]) && RepeatsFit([])
  {
  }

  lemma OneMoreRepeat(rs: seq<Repeat>, i: nat)
    requires i < |rs|
    ensures var g, r := RepeatGroup(rs[..i]), rs[i];
      RepeatGroup(rs[..i + 1]) ==
        if r.summary.Some? then
          g.(path := if g.path == "" then r.path else g.path, values := g.values[r.path := r.summary.value])
        else g
  {
    Snoc(rs, i);
  }

  lemma {:induction false} GroupPaths(rs: seq<Repeat>)
    requires RepeatsFit(rs)
    ensures |RepeatGroup(rs).values| == |rs|
    ensures forall path :: path in RepeatGroup(rs).values <==> exists i :: 0 <= i < |rs| && rs[i].path == path
  {
    hide Admitted;
    if rs == [] {
    } else {
      var init, r := rs[..|rs| - 1], rs[|rs| - 1];
      GroupPaths(init);
      assert Admitted(r) && r.summary.Some? by { AdmittedSummary(r); }
      forall path ensures path in RepeatGroup(rs).values <==> exists i :: 0 <= i < |rs| && rs[i].path == path {
        if path in RepeatGroup(init).values {
          var i :| 0 <= i < |init| && init[i].path == path;
          assert rs[i].path == path;
        }
        if exists i :: 0 <= i < |rs| && rs[i].path == path {
          var i :| 0 <= i < |rs| && rs[i].path == path;
          assert i < |init| ==> init[i].path == path;
        }
      }
      assert r.path !in RepeatGroup(init).values;
    }
  }

  lemma AdmittedSummary(r: Repeat)
    ensures Admitted(r) ==> r.summary.Some?
  {
  }

  /** One more duplicate fits exactly when it is admitted, new and not one too many; and otherwise nothing fits. */
  lemma RepeatFits(rs: seq<Repeat>, i: nat)
    requires i < |rs| && RepeatsFit(rs[..i])
    ensures |RepeatGroup(rs[..i]).values| == i
    ensures Admitted(rs[i]) && rs[i].path !in RepeatGroup(rs[..i]).values && i < MAX_GROUP ==> RepeatsFit(rs[..i + 1])
    ensures RepeatsFit(rs) ==> Admitted(rs[i]) && rs[i].path !in RepeatGroup(rs[..i]).values && i < MAX_GROUP
  {
    hide Admitted, RepeatGroup;
    GroupPaths(rs[..i]);
    assert forall j :: 0 <= j < i ==> rs[..i][j] == rs[j];
    assert forall j :: 0 <= j < i ==> rs[..i + 1][j] == rs[..i][j];
  }

  lemma NoCompatYet(fs: seq<Fact>, diagnosed: map<string, set<string>>)
    ensures CompatFacts(fs, [], diagnosed) == fs
    ensures RepeatedFact(fs, [], diagnosed) == Fact("repeatedCompatSettings", "", map[])
    ensures WithGroup(fs, RepeatedFact(fs, [], diagnosed)) == fs
    ensures ModeValues([]) == {}
  {
  }

  lemma OneMoreChild(fs: seq<Fact>, cs: seq<CompatChild>, i: nat, diagnosed: map<string, set<string>>)
    requires i < |cs|
    ensures var before := CompatFacts(fs, cs[..i], diagnosed);
      && CompatFacts(fs, cs[..i + 1], diagnosed) == before + Optional(CompatFact(cs[i], KindsOf(before), diagnosed))
      && RepeatedFact(fs, cs[..i + 1], diagnosed) == JoinGroup(RepeatedFact(fs, cs[..i], diagnosed), cs[i], KindsOf(before))
    ensures ModeValues(cs[..i + 1]) == ModeValues(cs[..i]) + if AttestsMode(cs[i]) then {cs[i].value} else {}
  {
    hide CompatFact, KindsOf, JoinGroup, ModeValues;
    Snoc(cs, i);
    ModesSnoc(cs, i);
  }

  lemma ModesSnoc(cs: seq<CompatChild>, i: nat)
    requires i < |cs|
    ensures ModeValues(cs[..i + 1]) == ModeValues(cs[..i]) + if AttestsMode(cs[i]) then {cs[i].value} else {}
  {
    forall j | 0 <= j < i ensures cs[..i + 1][j] == cs[..i][j] {
    }
    assert cs[..i + 1][i] == cs[i];
  }

  lemma ModesPrefix(cs: seq<CompatChild>, k: nat)
    requires k <= |cs|
    ensures ModeValues(cs[..k]) <= ModeValues(cs)
  {
    assert forall j :: 0 <= j < k ==> cs[..k][j] == cs[j];
  }

  lemma {:induction false} CompatFactsPrefix(fs: seq<Fact>, cs: seq<CompatChild>, k: nat, diagnosed: map<string, set<string>>)
    requires k <= |cs|
    ensures CompatFacts(fs, cs[..k], diagnosed) <= CompatFacts(fs, cs, diagnosed)
    decreases |cs|
  {
    hide CompatFact, KindsOf;
    if k == |cs| {
      assert cs[..k] == cs;
    } else {
      var init := cs[..|cs| - 1];
      CompatFactsPrefix(fs, init, k, diagnosed);
      assert init[..k] == cs[..k];
    }
  }

  /** When one child is refused, the whole list does not fit. */
  lemma ChildRefused(fs: seq<Fact>, cs: seq<CompatChild>, i: nat, diagnosed: map<string, set<string>>, modeValue: string)
    requires i < |cs| && ModeValues(cs[..i]) == if modeValue == "" then {} else {modeValue}
    requires var before := CompatFacts(fs, cs[..i], diagnosed);
      !(&& ChildFits(cs[i], KindsOf(before), RepeatedFact(fs, cs[..i], diagnosed), diagnosed)
        && (AttestsMode(cs[i]) && modeValue != "" ==> cs[i].value == modeValue)
        && Recordable(before + Optional(CompatFact(cs[i], KindsOf(before), diagnosed)), diagnosed))
    ensures !(&& CompatFits(fs, cs, diagnosed) && ModesAgree(cs)
              && Recordable(WithGroup(CompatFacts(fs, cs, diagnosed), RepeatedFact(fs, cs, diagnosed)), diagnosed))
  {
    hide ChildFits, Recordable, KindsOf, CompatFact, CompatFacts, RepeatedFact, ModeValues;
    OneMoreChild(fs, cs, i, diagnosed);
    ModesPrefix(cs, i + 1);
    CompatFactsPrefix(fs, cs, i + 1, diagnosed);
    var all := WithGroup(CompatFacts(fs, cs, diagnosed), RepeatedFact(fs, cs, diagnosed));
    if Recordable(all, diagnosed) { RecordablePrefix(CompatFacts(fs, cs[..i + 1], diagnosed), all, diagnosed); }
  }

  lemma FittingMode(c: CompatChild, kinds: set<string>, group: Fact, diagnosed: map<string, set<string>>)
    requires ChildFits(c, kinds, group, diagnosed)
    ensures AttestsMode(c) ==> c.value == "12" || c.value == "14" || c.value == "15"
  {
  }

  // ------------------------------------------------------------------ completeness

  /** Every compatibility option is disclosed: by a fact of its own kind and path, or in the group of repeats. */
  lemma {:induction false} OptionDisclosed(fs: seq<Fact>, cs: seq<CompatChild>, i: nat, diagnosed: map<string, set<string>>)
    requires i < |cs|
    ensures cs[i].LegacyFlag? ==>
              exists f :: f in CompatFacts(fs, cs, diagnosed) && f.kind == cs[i].kind && f.path == cs[i].path
    ensures cs[i].CompatSetting? && cs[i].name != MODE ==>
              || Fact(cs[i].name, cs[i].path, map["val" := cs[i].value]) in CompatFacts(fs, cs, diagnosed)
              || cs[i].path in RepeatedFact(fs, cs, diagnosed).values
  {
    hide CompatFacts, RepeatedFact, KindsOf;
    OneMoreChild(fs, cs, i, diagnosed);
    CompatFactsPrefix(fs, cs, i + 1, diagnosed);
    RepeatedPrefix(fs, cs, i + 1, diagnosed);
    var before := CompatFacts(fs, cs[..i], diagnosed);
    var own := CompatFact(cs[i], KindsOf(before), diagnosed);
    if own.Some? {
      var after := before + [own.value];
      assert after[|before|] == own.value && CompatFacts(fs, cs, diagnosed)[|before|] == own.value;
    }
  }

  lemma {:induction false} RepeatedPrefix(fs: seq<Fact>, cs: seq<CompatChild>, k: nat, diagnosed: map<string, set<string>>)
    requires k <= |cs|
    ensures RepeatedFact(fs, cs[..k], diagnosed).values.Keys <= RepeatedFact(fs, cs, diagnosed).values.Keys
    decreases |cs|
  {
    hide CompatFacts, KindsOf, Repeats;
    if k == |cs| {
      assert cs[..k] == cs;
    } else {
      var init := cs[..|cs| - 1];
      RepeatedPrefix(fs, init, k, diagnosed);
      assert init[..k] == cs[..k];
    }
  }

  // ------------------------------------------------------------------- the driver

  datatype Attestation = Attestation(eligible: bool, mode: Option<int>, reasons: seq<string>, facts: seq<Fact>)

  function Restated(ds: seq<Diagnostic>): seq<string> {
    seq(|ds|, i requires 0 <= i < |ds| => ds[i].code + ": " + ds[i].message)
  }

  predicate Diagnosed(ds: seq<Diagnostic>, path: string) {
    exists i :: 0 <= i < |ds| && ds[i].path == path
  }

  const POLICY := "Read-only approximation uses current layout policy"

  const MODERN := "Modern settings already qualify for " + "strict pagination"

  /** The codes diagnosed at each path. */
  function CodesAt(ds: seq<Diagnostic>, path: string): set<string> {
    set i | 0 <= i < |ds| && ds[i].path == path :: ds[i].code
  }

  function Index(ds: seq<Diagnostic>): map<string, set<string>> {
    map path | path in (set i | 0 <= i < |ds| :: ds[i].path) :: CodesAt(ds, path)
  }

  /** An attestation is due exactly when all diagnostics are admitted and all deviations can be named. */
  predicate Eligible(ds: seq<Diagnostic>, modern: bool, settings: Option<Settings>) {
    && !modern
    && (forall i :: 0 <= i < |ds| ==> ds[i].code in ADMITTED)
    && (settings.Some? ==> SettingsFit(settings.value, Index(ds)))
  }

  method IndexDiagnostics(ds: seq<Diagnostic>) returns (m: map<string, set<string>>)
    ensures m == Index(ds)
    ensures forall path :: path in m <==> Diagnosed(ds, path)
    ensures forall path, code :: path in m ==> (code in m[path] <==> exists i :: 0 <= i < |ds| && ds[i] == Diagnostic(code, path, ds[i].message))
  {
    m := map[];
    for i := 0 to |ds|
      invariant forall path :: path in m <==> exists j :: 0 <= j < i && ds[j].path == path
      invariant forall path, code :: path in m ==> (code in m[path] <==> exists j :: 0 <= j < i && ds[j].path == path && ds[j].code == code)
    {
      var codes := if ds[i].path in m then m[ds[i].path] else {};
      m := m[ds[i].path := codes + {ds[i].code}];
    }
    forall path | path in m ensures m[path] == CodesAt(ds, path) {
      assert forall code :: code in CodesAt(ds, path) <==> exists j :: 0 <= j < |ds| && ds[j].path == path && ds[j].code == code;
    }
  }

  lemma AdmittedDoNotDisclose(ds: seq<Diagnostic>)
    requires forall i :: 0 <= i < |ds| ==> ds[i].code in ADMITTED
    ensures NoneDiscloses(Restated(ds))
  {
    forall i | 0 <= i < |ds| ensures !Discloses(Restated(ds)[i]) {
      CodeDoesNotDisclose(ds[i].code, ": " + ds[i].message);
      assert ds[i].code + ": " + ds[i].message == ds[i].code + (": " + ds[i].message);
    }
  }

  lemma CodeDoesNotDisclose(code: string, rest: string)
    requires code in ADMITTED
    ensures !Discloses(code + rest)
  {
    assert |code| >= 2 && (code[0] != 'C' || code[1] == 'O' || code[1] == 'H');
    assert (code + rest)[0] == code[0] && (code + rest)[1] == code[1];
    assert FACT_PREFIX[0] == 'C' && FACT_PREFIX[1] == 'u';
  }

  /**
   * An ineligible attestation carries no fact and, beyond the restated diagnostics, one reason that discloses none.
   * An eligible one carries at most 64 facts of distinct kinds and paths, each joined to a strict diagnostic, exactly
   * their disclosures, and the mode all attestations agree on.
   */
  method Attest(ds: seq<Diagnostic>, modern: bool, settings: Option<Settings>) returns (r: Attestation)
    requires settings.Some? ==> (settings.value.containers == 0 ==> settings.value.compat == [])
    ensures !r.eligible ==> r.facts == [] && r.mode == None
    ensures !r.eligible ==> exists reason {:trigger Discloses(reason)} :: r.reasons == Restated(ds) + [reason] && !Discloses(reason)
    ensures r.eligible ==> |r.facts| <= MAX_FACTS && DistinctFacts(r.facts)
    ensures r.eligible ==> forall i :: 0 <= i < |r.facts| ==> Diagnosed(ds, r.facts[i].path)
    ensures r.eligible ==> r.reasons == Restated(ds) + Reasons(r.facts) + [POLICY]
    ensures r.eligible ==> r.mode.Some? && AgreedMode(if settings.Some? then settings.value.compat else [], r.mode.value)
    ensures r.eligible <==> Eligible(ds, modern, settings)
    ensures r.eligible ==> r.facts == if settings.Some? then Recorded(settings.value, Index(ds)) else []
  {
    hide AgreedMode, Reasons, Restated, DistinctFacts, Discloses, Cause;
    var reasons := Restated(ds);
    if modern {
      FixedReasons("");
      r := Ineligible(reasons, MODERN);
      return;
    }
    for i := 0 to |ds|
      invariant forall j :: 0 <= j < i ==> ds[j].code in ADMITTED
    {
      if ds[i].code !in ADMITTED {
        var detail := "strict settings diagnostic " + ds[i].code + " at " + ds[i].path + " is outside the current-layout admitted set";
        FixedReasons(detail);
        r := Ineligible(reasons, Cause(detail));
        return;
      }
    }
    AdmittedDoNotDisclose(ds);
    NoSettings();
    if settings == None {
      assert reasons + [] == reasons;
      return Attestation(true, Some(12), reasons + [POLICY], []);
    }
    r := Build(ds, reasons, settings.value);
  }

  method Ineligible(reasons: seq<string>, reason: string) returns (r: Attestation)
    requires reason != "" && reason[0] != 'C'
    ensures !r.eligible && r.facts == [] && r.mode == None
    ensures exists cause {:trigger Discloses(cause)} :: r.reasons == reasons + [cause] && !Discloses(cause)
  {
    assert FACT_PREFIX[0] == 'C';
    assert !Discloses(reason);
    return Attestation(false, None, reasons + [reason], []);
  }

  /** The builder's three passes, stopping at the first refusal. */
  method Build(ds: seq<Diagnostic>, reasons: seq<string>, settings: Settings) returns (r: Attestation)
    requires NoneDiscloses(reasons) && (settings.containers == 0 ==> settings.compat == [])
    ensures !r.eligible ==> r.facts == [] && r.mode == None
    ensures !r.eligible ==> exists reason {:trigger Discloses(reason)} :: r.reasons == reasons + [reason] && !Discloses(reason)
    ensures r.eligible ==> |r.facts| <= MAX_FACTS && DistinctFacts(r.facts)
    ensures r.eligible ==> forall i :: 0 <= i < |r.facts| ==> Diagnosed(ds, r.facts[i].path)
    ensures r.eligible ==> r.reasons == reasons + Reasons(r.facts) + [POLICY]
    ensures r.eligible ==> r.mode.Some? && AgreedMode(settings.compat, r.mode.value)
    ensures r.eligible <==> SettingsFit(settings, Index(ds))
    ensures r.eligible ==> r.facts == Recorded(settings, Index(ds))
  {
    hide AgreedMode, Reasons, DistinctFacts, Discloses, OwnFacts, Group, WithGroup, RepeatGroup, Admitted, Understood, Unreadable, KindsOf, PathsOf;
    var diagnosed := IndexDiagnostics(ds);
    var builder := new Builder(diagnosed, reasons);
    var ok := builder.TopLevel(settings.children);
    Passes(settings, diagnosed);
    if ok {
      ok := builder.Duplicates(settings.repeats);
    }
    var mode := 12;
    if ok {
      ok, mode := builder.Compat(settings.containers, settings.plain, settings.compat);
    }
    if !ok {
      RefusedReasons(builder);
      return Attestation(false, None, builder.reasons, builder.facts);
    }
    return Attestation(true, Some(mode), builder.reasons + [POLICY], builder.facts);
  }

  /** A pass that cannot be recorded makes the whole unrecordable. */
  lemma Passes(st: Settings, diagnosed: map<string, set<string>>)
    ensures var top := WithGroup([] + OwnFacts(st.children, diagnosed), Group(st.children, diagnosed));
      && top == WithGroup(OwnFacts(st.children, diagnosed), Group(st.children, diagnosed))
      && RootFacts(st, diagnosed) == WithGroup(top, RepeatGroup(st.repeats))
      && (Recordable(Recorded(st, diagnosed), diagnosed) ==> Recordable(RootFacts(st, diagnosed), diagnosed) && Recordable(top, diagnosed))
  {
    hide OwnFacts, Group, RepeatGroup, CompatFacts, RepeatedFact, Recordable;
    var own := OwnFacts(st.children, diagnosed);
    assert [] + own == own;
    var top, root, all := WithGroup(own, Group(st.children, diagnosed)), RootFacts(st, diagnosed), Recorded(st, diagnosed);
    CompatFactsPrefix(root, st.compat, 0, diagnosed);
    assert st.compat[..0] == [];
    NoCompatYet(root, diagnosed);
    if Recordable(all, diagnosed) {
      RecordablePrefix(root, all, diagnosed);
      RecordablePrefix(top, all, diagnosed);
    }
  }

  lemma FixedReasons(detail: string)
    ensures MODERN != "" && MODERN[0] != 'C' && Cause(detail) != "" && Cause(detail)[0] != 'C'
  {
    assert MODERN[0] == 'M' && REFUSED[0] == 'A';
    assert Cause(detail)[0] == REFUSED[0];
  }

  lemma NoSettings()
    ensures AgreedMode([], 12) && Reasons([]) == [] && DistinctFacts([])
  {
    assert ModeValues([]) == {};
  }

  lemma RefusedReasons(b: Builder)
    requires b.Refused()
    ensures exists reason {:trigger Discloses(reason)} :: b.reasons == b.base + [reason] && !Discloses(reason)
  {
    var detail :| b.reasons == b.base + [Cause(detail)];
    RefusalDoesNotDisclose(detail);
    assert !Discloses(Cause(detail));
  }
}
