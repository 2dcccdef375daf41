/** The GPIO configurator script (ti/drivers/.meta/GPIO.syscfg.js): the
    symbolic attribute mask generated for each pin, the validation rules,
    the ordering of pins so that the ones needing a callback-table slot
    come first, the collection of callback declarations, and the
    adjustment of an instance when its mode or null-entry flag changes. */
module GpioSyscfg {
  import opened JsStrings
  import EasylinkCommon

  datatype Mode = Input | Output | Dynamic
  datatype OutputType = Standard | OpenDrain
  datatype Strength = StrengthHigh | StrengthMedium | StrengthLow
  datatype Level = LevelHigh | LevelLow
  datatype Pull = PullNone | PullUp | PullDown
  datatype Trigger = TriggerNone | TriggerHigh | TriggerLow | FallingEdge | RisingEdge | BothEdges

  /** One GPIO instance with the configurables the script reads. */
  datatype Instance = Instance(
    name: string,
    mode: Mode,
    nullEntry: bool,
    outputType: OutputType,
    outputStrength: Strength,
    initialOutputState: Level,
    pull: Pull,
    interruptTrigger: Trigger,
    callbackFunction: string)

  function ModeName(m: Mode): string
  {
    match m
    case Input => "Input"
    case Output => "Output"
    case Dynamic => "Dynamic"
  }

  // ---------------------------------------------------------------------
  // getAttrs
  // ---------------------------------------------------------------------

  const DoNotConfig: string := "GPIO_DO_NOT_CONFIG"
  const AttrSep: string := " | "

  function StrengthTerm(s: Strength): string
  {
    "GPIO_CFG_OUT_STR_" + match s
      case StrengthHigh => "HIGH"
      case StrengthMedium => "MED"
      case StrengthLow => "LOW"
  }

  function OpenDrainTerm(p: Pull): string
  {
    "GPIO_CFG_OUT_OD_" + match p
      case PullUp => "PU"
      case PullDown => "PD"
      case PullNone => "NOPULL"
  }

  function LevelTerm(l: Level): string
  {
    "GPIO_CFG_OUT_" + if l == LevelHigh then "HIGH" else "LOW"
  }

  function InPullTerm(p: Pull): string
  {
    "GPIO_CFG_IN_" + match p
      case PullUp => "PU"
      case PullDown => "PD"
      case PullNone => "NOPULL"
  }

  function IntSuffix(t: Trigger): string
  {
    match t
    case TriggerNone => "NONE"
    case FallingEdge => "FALLING"
    case RisingEdge => "RISING"
    case TriggerHigh => "HIGH"
    case TriggerLow => "LOW"
    case BothEdges => "BOTH_EDGES"
  }

  function IntTerm(t: Trigger): string
  {
    "GPIO_CFG_IN_INT_" + IntSuffix(t)
  }

  /** getAttrs: the `GPIO_CFG_*` terms joined by " | ", or
      GPIO_DO_NOT_CONFIG for a dynamic pin or the null entry. */
  function GetAttrs(inst: Instance): string
  {
    if inst.mode == Dynamic || inst.nullEntry then DoNotConfig
    else if inst.mode == Output then
      var output :=
        if inst.outputType == Standard then "GPIO_CFG_OUT_STD" + AttrSep + StrengthTerm(inst.outputStrength)
        else OpenDrainTerm(inst.pull);
      output + AttrSep + LevelTerm(inst.initialOutputState)
    else InPullTerm(inst.pull) + AttrSep + IntTerm(inst.interruptTrigger)
  }

  predicate StartsWith(s: string, prefix: string)
  {
    |prefix| <= |s| && s[..|prefix|] == prefix
  }

  predicate EndsWith(s: string, suffix: string)
  {
    |suffix| <= |s| && s[|s| - |suffix|..] == suffix
  }

  /** GPIO_DO_NOT_CONFIG is produced exactly for dynamic pins and the
      null entry; every other pin gets real `GPIO_CFG_` terms. */
  lemma GetAttrsDoNotConfig(inst: Instance)
    ensures GetAttrs(inst) == DoNotConfig <==> inst.mode == Dynamic || inst.nullEntry
    ensures !(inst.mode == Dynamic || inst.nullEntry) ==> StartsWith(GetAttrs(inst), "GPIO_CFG_")
  {
    var a := GetAttrs(inst);
    if !(inst.mode == Dynamic || inst.nullEntry) {
      assert a[..9] == "GPIO_CFG_";
      assert a[5] == 'C' && DoNotConfig[5] == 'D';
    }
  }

  /** An output pin's mask ends with the term of its initial level, and the
      level can be read back from that ending. */
  lemma OutputAttrsLevel(inst: Instance)
    requires inst.mode == Output && !inst.nullEntry
    ensures EndsWith(GetAttrs(inst), AttrSep + LevelTerm(inst.initialOutputState))
    ensures EndsWith(GetAttrs(inst), "GPIO_CFG_OUT_HIGH") <==> inst.initialOutputState == LevelHigh
  {
    var a := GetAttrs(inst);
    var t := AttrSep + LevelTerm(inst.initialOutputState);
    assert a[|a| - |t|..] == t;
    if inst.initialOutputState == LevelLow {
      assert a[|a| - 1] == 'W';
    }
  }

  /** An input pin's mask is its pull term followed by exactly one
      interrupt term, which is INT_NONE exactly when no trigger is set. */
  lemma InputAttrsShape(inst: Instance)
    requires inst.mode == Input && !inst.nullEntry
    ensures GetAttrs(inst) == Join([InPullTerm(inst.pull), IntTerm(inst.interruptTrigger)], AttrSep)
    ensures IntTerm(inst.interruptTrigger) == "GPIO_CFG_IN_INT_NONE" <==>
            inst.interruptTrigger == TriggerNone
  {
    var t := inst.interruptTrigger;
    var s := IntSuffix(t);
    assert IntTerm(t)[16..] == s;
    if t != TriggerNone {
      assert s != "NONE" by {
        if |s| == 4 {
          assert s[0] != 'N';
        }
      }
    }
  }

  // ---------------------------------------------------------------------
  // validate
  // ---------------------------------------------------------------------

  datatype Severity = Error | Warning
  /** The rule a report comes from. */
  datatype Issue = TriggerOnOutput | CallbackOnOutput | NotCName | NullCallback | MisspelledNull
  /** A logged report: its severity, the configurable it is attached to
      and the rule it comes from; the text is ReportMessage. */
  datatype Report = Report(severity: Severity, config: Config, issue: Issue)

  /** The text logged with each report. */
  function ReportMessage(issue: Issue, inst: Instance): string
  {
    var cb := inst.callbackFunction;
    match issue
    case TriggerOnOutput => "Output mode GPIO resources can't trigger interrupts"
    case CallbackOnOutput => "callback '" + cb + "' set, but won't be triggered by this output-only GPIO"
    case NotCName => "'" + cb + "' is not a valid a C identifier"
    case NullCallback =>
      "Callback must not be NULL or the 'mode' must be set to 'Dynamic' (not " + ModeName(inst.mode) + ")"
    case MisspelledNull => "Did you mean \"NULL\"?"
  }

  function OutputTriggerRule(inst: Instance): seq<Report>
  {
    if inst.mode == Output && inst.interruptTrigger != TriggerNone then
      [Report(Error, InterruptTriggerCfg, TriggerOnOutput)]
    else []
  }

  function OutputCallbackRule(inst: Instance): seq<Report>
  {
    var cb := inst.callbackFunction;
    if inst.mode == Output && |cb| > 0 then
      [Report(Error, CallbackFunctionCfg, CallbackOnOutput)]
    else []
  }

  function CNameRule(inst: Instance): seq<Report>
  {
    var cb := inst.callbackFunction;
    if !EasylinkCommon.IsCName(cb) then
      [Report(Error, CallbackFunctionCfg, NotCName)]
    else []
  }

  function NullCallbackRule(inst: Instance): seq<Report>
  {
    if inst.interruptTrigger != TriggerNone && inst.callbackFunction == "" && inst.mode != Dynamic then
      [Report(Warning, CallbackFunctionCfg, NullCallback)]
    else []
  }

  function MisspelledNullRule(inst: Instance): seq<Report>
  {
    var cb := inst.callbackFunction;
    if cb != "NULL" && ToLower(cb) == "null" then
      [Report(Warning, CallbackFunctionCfg, MisspelledNull)]
    else []
  }

  /** validate: the errors and warnings logged for one instance, in order. */
  function Validate(inst: Instance): seq<Report>
  {
    OutputTriggerRule(inst) + OutputCallbackRule(inst) + CNameRule(inst) +
    NullCallbackRule(inst) + MisspelledNullRule(inst)
  }

  function IssuesOf(reports: seq<Report>): set<Issue>
  {
    set r | r in reports :: r.issue
  }

  lemma IssuesOfConcat(a: seq<Report>, b: seq<Report>)
    ensures IssuesOf(a + b) == IssuesOf(a) + IssuesOf(b)
  {
  }

  lemma IssuesOfValidate(inst: Instance)
    ensures IssuesOf(Validate(inst)) ==
            IssuesOf(OutputTriggerRule(inst)) + IssuesOf(OutputCallbackRule(inst)) +
            IssuesOf(CNameRule(inst)) + IssuesOf(NullCallbackRule(inst)) +
            IssuesOf(MisspelledNullRule(inst))
  {
    var r1, r2, r3, r4, r5 := OutputTriggerRule(inst), OutputCallbackRule(inst), CNameRule(inst),
                              NullCallbackRule(inst), MisspelledNullRule(inst);
    IssuesOfConcat(r1, r2);
    IssuesOfConcat(r1 + r2, r3);
    IssuesOfConcat(r1 + r2 + r3, r4);
    IssuesOfConcat(r1 + r2 + r3 + r4, r5);
  }

  function IssueIf(c: bool, issue: Issue): set<Issue>
  {
    if c then {issue} else {}
  }

  lemma IssuesOfSingle(rs: seq<Report>, c: bool, r: Report)
    requires rs == if c then [r] else []
    ensures IssuesOf(rs) == IssueIf(c, r.issue)
  {
  }

  /** Each rule contributes its own issue exactly under its condition. */
  lemma RuleIssues(inst: Instance)
    ensures IssuesOf(OutputTriggerRule(inst)) ==
            IssueIf(inst.mode == Output && inst.interruptTrigger != TriggerNone, TriggerOnOutput)
    ensures IssuesOf(OutputCallbackRule(inst)) ==
            IssueIf(inst.mode == Output && inst.callbackFunction != "", CallbackOnOutput)
    ensures IssuesOf(CNameRule(inst)) == IssueIf(!EasylinkCommon.IsCName(inst.callbackFunction), NotCName)
    ensures IssuesOf(NullCallbackRule(inst)) ==
            IssueIf(inst.interruptTrigger != TriggerNone && inst.callbackFunction == "" &&
                    inst.mode != Dynamic, NullCallback)
    ensures IssuesOf(MisspelledNullRule(inst)) ==
            IssueIf(inst.callbackFunction != "NULL" && ToLower(inst.callbackFunction) == "null",
                    MisspelledNull)
  {
    var cb := inst.callbackFunction;
    IssuesOfSingle(OutputTriggerRule(inst), inst.mode == Output && inst.interruptTrigger != TriggerNone,
                   Report(Error, InterruptTriggerCfg, TriggerOnOutput));
    IssuesOfSingle(OutputCallbackRule(inst), inst.mode == Output && |cb| > 0,
                   Report(Error, CallbackFunctionCfg, CallbackOnOutput));
    assert (|cb| > 0) == (cb != "");
    IssuesOfSingle(CNameRule(inst), !EasylinkCommon.IsCName(cb), Report(Error, CallbackFunctionCfg, NotCName));
    IssuesOfSingle(NullCallbackRule(inst), inst.interruptTrigger != TriggerNone && cb == "" && inst.mode != Dynamic,
                   Report(Warning, CallbackFunctionCfg, NullCallback));
    IssuesOfSingle(MisspelledNullRule(inst), cb != "NULL" && ToLower(cb) == "null",
                   Report(Warning, CallbackFunctionCfg, MisspelledNull));
  }

  /** Each rule fires exactly under its condition. */
  lemma ValidateRules(inst: Instance)
    ensures TriggerOnOutput in IssuesOf(Validate(inst)) <==>
            inst.mode == Output && inst.interruptTrigger != TriggerNone
    ensures CallbackOnOutput in IssuesOf(Validate(inst)) <==>
            inst.mode == Output && inst.callbackFunction != ""
    ensures NotCName in IssuesOf(Validate(inst)) <==> !EasylinkCommon.IsCName(inst.callbackFunction)
    ensures NullCallback in IssuesOf(Validate(inst)) <==>
            inst.interruptTrigger != TriggerNone && inst.callbackFunction == "" && inst.mode != Dynamic
    ensures MisspelledNull in IssuesOf(Validate(inst)) <==>
            inst.callbackFunction != "NULL" && ToLower(inst.callbackFunction) == "null"
  {
    IssuesOfValidate(inst);
    RuleIssues(inst);
    IssueUnion(inst.mode == Output && inst.interruptTrigger != TriggerNone,
               inst.mode == Output && inst.callbackFunction != "",
               !EasylinkCommon.IsCName(inst.callbackFunction),
               inst.interruptTrigger != TriggerNone && inst.callbackFunction == "" && inst.mode != Dynamic,
               inst.callbackFunction != "NULL" && ToLower(inst.callbackFunction) == "null");
  }

  /** Membership in a union of five conditional singletons of distinct issues. */
  lemma IssueUnion(c1: bool, c2: bool, c3: bool, c4: bool, c5: bool)
    ensures var u := IssueIf(c1, TriggerOnOutput) + IssueIf(c2, CallbackOnOutput) + IssueIf(c3, NotCName) +
                     IssueIf(c4, NullCallback) + IssueIf(c5, MisspelledNull);
            (TriggerOnOutput in u <==> c1) && (CallbackOnOutput in u <==> c2) && (NotCName in u <==> c3) &&
            (NullCallback in u <==> c4) && (MisspelledNull in u <==> c5)
  {
  }

  /** The severity and configurable a report carries for its issue. */
  predicate Classified(r: Report)
  {
    (r.severity == Error <==> r.issue in {TriggerOnOutput, CallbackOnOutput, NotCName})
    && (r.config == InterruptTriggerCfg <==> r.issue == TriggerOnOutput)
  }

  lemma ClassifiedSingle(rs: seq<Report>, c: bool, r: Report)
    requires rs == if c then [r] else []
    requires Classified(r)
    ensures forall x :: x in rs ==> Classified(x)
  {
  }

  /** The first three rules log errors and the last two warnings; every
      report but the output-trigger one is about the callback. */
  lemma ValidateSeverities(inst: Instance)
    ensures forall r :: r in Validate(inst) ==>
              (r.severity == Error <==> r.issue in {TriggerOnOutput, CallbackOnOutput, NotCName})
    ensures forall r :: r in Validate(inst) ==>
              (r.config == InterruptTriggerCfg <==> r.issue == TriggerOnOutput)
  {
    var cb := inst.callbackFunction;
    var r1, r2, r3, r4, r5 := OutputTriggerRule(inst), OutputCallbackRule(inst), CNameRule(inst),
                              NullCallbackRule(inst), MisspelledNullRule(inst);
    ClassifiedSingle(r1, inst.mode == Output && inst.interruptTrigger != TriggerNone,
                     Report(Error, InterruptTriggerCfg, TriggerOnOutput));
    ClassifiedSingle(r2, inst.mode == Output && |cb| > 0, Report(Error, CallbackFunctionCfg, CallbackOnOutput));
    ClassifiedSingle(r3, !EasylinkCommon.IsCName(cb), Report(Error, CallbackFunctionCfg, NotCName));
    ClassifiedSingle(r4, inst.interruptTrigger != TriggerNone && cb == "" && inst.mode != Dynamic,
                     Report(Warning, CallbackFunctionCfg, NullCallback));
    ClassifiedSingle(r5, cb != "NULL" && ToLower(cb) == "null", Report(Warning, CallbackFunctionCfg, MisspelledNull));
    assert Validate(inst) == r1 + r2 + r3 + r4 + r5;
    assert forall r :: r in Validate(inst) ==> Classified(r);
  }

  /** An instance with no trigger and no callback passes validation with
      nothing to report, whatever its mode. */
  lemma ClearedInstanceValid(inst: Instance)
    requires inst.interruptTrigger == TriggerNone && inst.callbackFunction == ""
    ensures Validate(inst) == []
  {
    assert ToLower("") == "";
  }

  // ---------------------------------------------------------------------
  // updateConfigs / updateNullEntry
  // ---------------------------------------------------------------------

  /** The configurables whose visibility the script adjusts. */
  datatype Config =
    | CallbackFunctionCfg | OutputTypeCfg | OutputStrengthCfg
    | InitialOutputStateCfg | PullCfg | InterruptTriggerCfg

  /** A flag set twice keeps only its second value, whatever was set between. */
  lemma OverwriteAcross<K, V>(m: map<K, V>, a: K, x: V, b: K, y: V, z: V)
    requires a != b
    ensures m[a := x][b := y][a := z] == m[b := y][a := z]
  {
  }

  /** An instance together with the hidden flags of its configurables. */
  class InstanceView {
    var inst: Instance
    var hidden: map<Config, bool>

    constructor (i: Instance, h: map<Config, bool>)
      ensures inst == i && hidden == h
    {
      inst := i;
      hidden := h;
    }

    /** updateConfigs: shows the configurables that apply to the mode and
        hides the rest; an output pin loses its trigger and callback. */
    method UpdateConfigs()
      modifies this
      ensures old(inst.mode) == Output ==>
                inst == old(inst).(interruptTrigger := TriggerNone, callbackFunction := "") &&
                hidden == old(hidden)[CallbackFunctionCfg := true][OutputTypeCfg := false]
                                     [InitialOutputStateCfg := false]
                                     [OutputStrengthCfg := old(inst.outputType) != Standard]
                                     [PullCfg := false][InterruptTriggerCfg := true]
      ensures old(inst.mode) == Output ==> Validate(inst) == []
      ensures old(inst.mode) == Input ==>
                inst == old(inst) &&
                hidden == old(hidden)[OutputTypeCfg := true][OutputStrengthCfg := true]
                                     [InitialOutputStateCfg := true][PullCfg := false]
                                     [InterruptTriggerCfg := false][CallbackFunctionCfg := false]
      ensures old(inst.mode) == Dynamic ==>
                inst == old(inst) &&
                hidden == old(hidden)[OutputTypeCfg := true][OutputStrengthCfg := true]
                                     [InitialOutputStateCfg := true][PullCfg := true]
                                     [CallbackFunctionCfg := false][InterruptTriggerCfg := true]
    {
      match inst.mode
      case Output =>
        hidden := hidden[CallbackFunctionCfg := true];
        hidden := hidden[OutputTypeCfg := false];
        hidden := hidden[InitialOutputStateCfg := false];
        OverwriteAcross(hidden, PullCfg, inst.outputType == Standard, OutputStrengthCfg, inst.outputType != Standard, false);
        if inst.outputType == Standard {
          hidden := hidden[PullCfg := true];
          hidden := hidden[OutputStrengthCfg := false];
        } else {
          hidden := hidden[PullCfg := false];
          hidden := hidden[OutputStrengthCfg := true];
        }
        hidden := hidden[PullCfg := false];
        hidden := hidden[InterruptTriggerCfg := true];
        inst := inst.(interruptTrigger := TriggerNone, callbackFunction := "");
        ClearedInstanceValid(inst);
      case Input =>
        hidden := hidden[OutputTypeCfg := true];
        hidden := hidden[OutputStrengthCfg := true];
        hidden := hidden[InitialOutputStateCfg := true];
        hidden := hidden[PullCfg := false];
        hidden := hidden[InterruptTriggerCfg := false];
        hidden := hidden[CallbackFunctionCfg := false];
      case Dynamic =>
        hidden := hidden[OutputTypeCfg := true];
        hidden := hidden[OutputStrengthCfg := true];
        hidden := hidden[InitialOutputStateCfg := true];
        hidden := hidden[PullCfg := true];
        hidden := hidden[CallbackFunctionCfg := false];
        hidden := hidden[InterruptTriggerCfg := true];
    }

    /** updateNullEntry: the null entry has no trigger and no callback. */
    method UpdateNullEntry()
      modifies this
      ensures old(inst.nullEntry) ==>
                inst == old(inst).(interruptTrigger := TriggerNone, callbackFunction := "") &&
                Validate(inst) == []
      ensures !old(inst.nullEntry) ==> inst == old(inst)
      ensures hidden == old(hidden)
    {
      if inst.nullEntry {
        inst := inst.(interruptTrigger := TriggerNone, callbackFunction := "");
        ClearedInstanceValid(inst);
      }
    }
  }

  // ---------------------------------------------------------------------
  // sort
  // ---------------------------------------------------------------------

  /** `addCallback[inst.$name] == true` */
  predicate Marked(addCallback: map<string, bool>, name: string)
  {
    name in addCallback && addCallback[name]
  }

  /** The marked instances, in their original order. */
  function MarkedOnes(xs: seq<Instance>, addCallback: map<string, bool>): (r: seq<Instance>)
    ensures forall x :: x in r ==> Marked(addCallback, x.name)
    ensures |r| <= |xs|
  {
    if |xs| == 0 then []
    else
      var last := xs[|xs| - 1];
      MarkedOnes(xs[..|xs| - 1], addCallback) + (if Marked(addCallback, last.name) then [last] else [])
  }

  /** The unmarked instances, in their original order. */
  function UnmarkedOnes(xs: seq<Instance>, addCallback: map<string, bool>): (r: seq<Instance>)
    ensures forall x :: x in r ==> !Marked(addCallback, x.name)
    ensures |r| <= |xs|
  {
    if |xs| == 0 then []
    else
      var last := xs[|xs| - 1];
      UnmarkedOnes(xs[..|xs| - 1], addCallback) + (if Marked(addCallback, last.name) then [] else [last])
  }

  /** sort: unchanged when there are no instances or sorting is disabled;
      otherwise the instances with a callback slot come first, each group
      in its original order. */
  method Sort(instances: seq<Instance>, addCallback: map<string, bool>, enableSort: bool)
    returns (sorted: seq<Instance>)
    ensures |instances| == 0 || !enableSort ==> sorted == instances
    ensures |instances| > 0 && enableSort ==>
              sorted == MarkedOnes(instances, addCallback) + UnmarkedOnes(instances, addCallback)
  {
    if |instances| == 0 || !enableSort {
      return instances;
    }
    var callbackInstances: seq<Instance> := [];
    var otherInstances: seq<Instance> := [];
    var i := 0;
    while i < |instances|
      invariant 0 <= i <= |instances|
      invariant callbackInstances == MarkedOnes(instances[..i], addCallback)
      invariant otherInstances == UnmarkedOnes(instances[..i], addCallback)
    {
      var inst := instances[i];
      PartitionStep(instances, i, addCallback);
      var marked := inst.name in addCallback && addCallback[inst.name] == true;
      assert marked == Marked(addCallback, inst.name);
      if marked {
        callbackInstances := callbackInstances + [inst];
      } else {
        otherInstances := otherInstances + [inst];
      }
      i := i + 1;
    }
    assert instances[..|instances|] == instances;
    sorted := callbackInstances + otherInstances;
  }

  /** One more instance joins the side its mark selects. */
  lemma PartitionStep(xs: seq<Instance>, i: nat, addCallback: map<string, bool>)
    requires i < |xs|
    ensures MarkedOnes(xs[..i + 1], addCallback) ==
            MarkedOnes(xs[..i], addCallback) + (if Marked(addCallback, xs[i].name) then [xs[i]] else [])
    ensures UnmarkedOnes(xs[..i + 1], addCallback) ==
            UnmarkedOnes(xs[..i], addCallback) + (if Marked(addCallback, xs[i].name) then [] else [xs[i]])
  {
    assert xs[..i + 1][..i] == xs[..i];
  }

  /** The partition is a permutation of the instances. */
  lemma {:induction false} PartitionPermutes(xs: seq<Instance>, addCallback: map<string, bool>)
    ensures multiset(MarkedOnes(xs, addCallback) + UnmarkedOnes(xs, addCallback)) == multiset(xs)
  {
    if |xs| > 0 {
      var init, last := xs[..|xs| - 1], xs[|xs| - 1];
      PartitionPermutes(init, addCallback);
      assert xs == init + [last];
      AppendOneSide(MarkedOnes(init, addCallback), UnmarkedOnes(init, addCallback), init, last,
                    MarkedOnes(xs, addCallback), UnmarkedOnes(xs, addCallback));
    }
  }

  /** Appending one element to either side of a split keeps it a permutation. */
  lemma AppendOneSide<T>(m0: seq<T>, u0: seq<T>, init: seq<T>, last: T, m: seq<T>, u: seq<T>)
    requires multiset(m0 + u0) == multiset(init)
    requires (m == m0 + [last] && u == u0) || (m == m0 && u == u0 + [last])
    ensures multiset(m + u) == multiset(init + [last])
  {
    assert multiset(init + [last]) == multiset(init) + multiset{last};
    assert multiset(m + u) == multiset(m0) + multiset(u0) + multiset{last};
  }

  /** In the sorted order every marked instance precedes every unmarked one. */
  lemma SortedGroups(xs: seq<Instance>, addCallback: map<string, bool>, i: nat, j: nat)
    requires i < j < |MarkedOnes(xs, addCallback) + UnmarkedOnes(xs, addCallback)|
    requires !Marked(addCallback, (MarkedOnes(xs, addCallback) + UnmarkedOnes(xs, addCallback))[i].name)
    ensures !Marked(addCallback, (MarkedOnes(xs, addCallback) + UnmarkedOnes(xs, addCallback))[j].name)
  {
    var m := MarkedOnes(xs, addCallback);
    var u := UnmarkedOnes(xs, addCallback);
    assert (m + u)[j] in u;
  }

  // ---------------------------------------------------------------------
  // collectCallbacks
  // ---------------------------------------------------------------------

  /** Whether an instance takes a slot in the callback table. */
  predicate NeedsCallback(inst: Instance, sortDisabled: bool)
  {
    sortDisabled || inst.callbackFunction != "" || inst.interruptTrigger != TriggerNone ||
    inst.mode == Dynamic || inst.nullEntry
  }

  /** A callback name that needs an extern declaration. */
  predicate IsCallbackName(cb: string)
  {
    cb != "" && cb != "NULL"
  }

  function CountNeeding(xs: seq<Instance>, sortDisabled: bool): (n: nat)
    ensures n <= |xs|
  {
    if |xs| == 0 then 0
    else CountNeeding(xs[..|xs| - 1], sortDisabled) + (if NeedsCallback(xs[|xs| - 1], sortDisabled) then 1 else 0)
  }

  /** The `addCallback` map after recording each instance in turn. */
  function Marks(m: map<string, bool>, xs: seq<Instance>, sortDisabled: bool): map<string, bool>
  {
    if |xs| == 0 then m
    else
      var last := xs[|xs| - 1];
      Marks(m, xs[..|xs| - 1], sortDisabled)[last.name := NeedsCallback(last, sortDisabled)]
  }

  /** The distinct callback names, in order of first appearance (the keys
      of the `callbacks` object in insertion order). */
  function CallbackNames(xs: seq<Instance>): (names: seq<string>)
    ensures forall i, j :: 0 <= i < j < |names| ==> names[i] != names[j]
  {
    if |xs| == 0 then []
    else
      var names := CallbackNames(xs[..|xs| - 1]);
      var cb := xs[|xs| - 1].callbackFunction;
      if IsCallbackName(cb) && cb !in names then names + [cb] else names
  }

  function ExternDecl(name: string): string
  {
    "extern void " + name + "(uint_least8_t index);"
  }

  function ExternDecls(names: seq<string>): (decls: seq<string>)
    ensures |decls| == |names|
    ensures forall i :: 0 <= i < |names| ==> decls[i] == ExternDecl(names[i])
  {
    if |names| == 0 then [] else ExternDecls(names[..|names| - 1]) + [ExternDecl(names[|names| - 1])]
  }

  /** The first loop of collectCallbacks, over values. */
  method CollectLoop(instances: seq<Instance>, sortDisabled: bool, marks0: map<string, bool>)
    returns (callbackCount: nat, marks: map<string, bool>, names: seq<string>)
    ensures callbackCount == CountNeeding(instances, sortDisabled)
    ensures marks == Marks(marks0, instances, sortDisabled)
    ensures names == CallbackNames(instances)
  {
    callbackCount := 0;
    marks := marks0;
    names := [];
    var i := 0;
    while i < |instances|
      invariant 0 <= i <= |instances|
      invariant callbackCount == CountNeeding(instances[..i], sortDisabled)
      invariant marks == Marks(marks0, instances[..i], sortDisabled)
      invariant names == CallbackNames(instances[..i])
    {
      var inst := instances[i];
      CollectStep(instances, i, sortDisabled, marks0);
      var needs := sortDisabled || inst.callbackFunction != "" || inst.interruptTrigger != TriggerNone ||
                   inst.mode == Dynamic || inst.nullEntry;
      assert needs == NeedsCallback(inst, sortDisabled);
      if needs {
        marks := marks[inst.name := true];
        callbackCount := callbackCount + 1;
      } else {
        marks := marks[inst.name := false];
      }
      var newName := inst.callbackFunction != "" && inst.callbackFunction != "NULL" && inst.callbackFunction !in names;
      assert newName == (IsCallbackName(inst.callbackFunction) && inst.callbackFunction !in names);
      if newName {
        names := names + [inst.callbackFunction];
      }
      i := i + 1;
    }
    assert instances[..|instances|] == instances;
  }

  /** How each recorded quantity grows by one instance. */
  lemma CollectStep(xs: seq<Instance>, i: nat, sortDisabled: bool, marks0: map<string, bool>)
    requires i < |xs|
    ensures CountNeeding(xs[..i + 1], sortDisabled) ==
            CountNeeding(xs[..i], sortDisabled) + (if NeedsCallback(xs[i], sortDisabled) then 1 else 0)
    ensures Marks(marks0, xs[..i + 1], sortDisabled) ==
            Marks(marks0, xs[..i], sortDisabled)[xs[i].name := NeedsCallback(xs[i], sortDisabled)]
    ensures var names, cb := CallbackNames(xs[..i]), xs[i].callbackFunction;
            CallbackNames(xs[..i + 1]) == if IsCallbackName(cb) && cb !in names then names + [cb] else names
  {
    assert xs[..i + 1][..i] == xs[..i];
  }

  /** The callback bookkeeping shared by the code generator. */
  class CallbackTable {
    var addCallback: map<string, bool>
    var externs: seq<string>

    constructor ()
      ensures addCallback == map[] && externs == []
    {
      addCallback := map[];
      externs := [];
    }

    /** collectCallbacks: marks every instance with whether it needs a
        callback slot, appends one extern declaration per distinct callback
        name, and returns the number of marked instances. */
    method CollectCallbacks(instances: seq<Instance>, enableSort: bool) returns (callbackCount: nat)
      modifies this
      ensures callbackCount == CountNeeding(instances, !enableSort)
      ensures addCallback == Marks(old(addCallback), instances, !enableSort)
      ensures externs == old(externs) + ExternDecls(CallbackNames(instances))
    {
      var sortDisabled := !enableSort;
      var marks, names;
      callbackCount, marks, names := CollectLoop(instances, sortDisabled, addCallback);
      addCallback := marks;
      var j := 0;
      while j < |names|
        invariant 0 <= j <= |names|
        invariant externs == old(externs) + ExternDecls(names[..j])
        invariant addCallback == marks
      {
        assert names[..j + 1][..j] == names[..j];
        externs := externs + [ExternDecl(names[j])];
        j := j + 1;
      }
      assert names[..|names|] == names;
    }
  }

  /** A name is declared extern exactly when some instance uses it as a
      callback other than "" and "NULL". */
  lemma {:induction false} CallbackNamesMembers(xs: seq<Instance>, n: string)
    ensures n in CallbackNames(xs) <==>
            IsCallbackName(n) && exists i :: 0 <= i < |xs| && xs[i].callbackFunction == n
  {
    if |xs| > 0 {
      var init := xs[..|xs| - 1];
      CallbackNamesMembers(init, n);
      if IsCallbackName(n) && (exists i :: 0 <= i < |xs| && xs[i].callbackFunction == n) {
        var i :| 0 <= i < |xs| && xs[i].callbackFunction == n;
        if i < |xs| - 1 {
          assert init[i] == xs[i];
        }
      }
      if exists i :: 0 <= i < |init| && init[i].callbackFunction == n {
        var i :| 0 <= i < |init| && init[i].callbackFunction == n;
        assert xs[i] == init[i];
      }
    }
  }

  /** Different names give different declarations. */
  lemma ExternDeclInjective(a: string, b: string)
    requires ExternDecl(a) == ExternDecl(b)
    ensures a == b
  {
    var sa := ExternDecl(a);
    assert sa[12..|sa| - 22] == a;
    var sb := ExternDecl(b);
    assert sb[12..|sb| - 22] == b;
  }

  /** Instance names are unique within a configuration. */
  predicate UniqueNames(xs: seq<Instance>)
  {
    forall i, j :: 0 <= i < j < |xs| ==> xs[i].name != xs[j].name
  }

  /** With unique instance names, the map records for each instance
      whether it needs a callback slot. */
  lemma {:induction false} MarksRecordEach(m: map<string, bool>, xs: seq<Instance>, sortDisabled: bool, i: nat)
    requires UniqueNames(xs)
    requires i < |xs|
    ensures Marked(Marks(m, xs, sortDisabled), xs[i].name) <==> NeedsCallback(xs[i], sortDisabled)
  {
    var init := xs[..|xs| - 1];
    if i < |xs| - 1 {
      assert init[i] == xs[i];
      MarksRecordEach(m, init, sortDisabled, i);
      assert xs[i].name != xs[|xs| - 1].name;
    }
  }

  /** The number of instances marked true by any marking that agrees with
      NeedsCallback is the count collectCallbacks returns. */
  lemma {:induction false} MarkedCount(xs: seq<Instance>, addCallback: map<string, bool>, sortDisabled: bool)
    requires forall i :: 0 <= i < |xs| ==> (Marked(addCallback, xs[i].name) <==> NeedsCallback(xs[i], sortDisabled))
    ensures |MarkedOnes(xs, addCallback)| == CountNeeding(xs, sortDisabled)
  {
    if |xs| > 0 {
      var init := xs[..|xs| - 1];
      forall i | 0 <= i < |init|
        ensures Marked(addCallback, init[i].name) <==> NeedsCallback(init[i], sortDisabled)
      {
        assert init[i] == xs[i];
      }
      MarkedCount(init, addCallback, sortDisabled);
    }
  }

  /** collectCallbacks followed by sort: the count returned is the size of
      the leading group of sorted instances, i.e. of the callback table. */
  lemma CollectThenSort(m: map<string, bool>, xs: seq<Instance>, sortDisabled: bool)
    requires UniqueNames(xs)
    ensures |MarkedOnes(xs, Marks(m, xs, sortDisabled))| == CountNeeding(xs, sortDisabled)
  {
    forall i | 0 <= i < |xs|
      ensures Marked(Marks(m, xs, sortDisabled), xs[i].name) <==> NeedsCallback(xs[i], sortDisabled)
    {
      MarksRecordEach(m, xs, sortDisabled, i);
    }
    MarkedCount(xs, Marks(m, xs, sortDisabled), sortDisabled);
  }
}
