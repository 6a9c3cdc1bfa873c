/** The pure logic of the templates screen: the bundled templates with their
    ids, choosing one, and building a custom template from the form. */
module TemplatesScreen {
  import opened Decimal
  import opened Js
  import opened Optional
  import Timer
  import AppConfig

  /** A template as the screen lists it. */
  datatype LocalTemplate = LocalTemplate(
    id: string,
    name: string,
    workDuration: int,
    restDuration: int,
    rounds: int,
    sets: int,
    setRestDuration: int)

  function DefaultId(i: nat): string {
    "default-" + NatToString(i)
  }

  /** The bundled presets, each tagged with the id of its position. */
  function WithDefaultIds(ps: seq<AppConfig.Preset>): (ts: seq<LocalTemplate>)
    ensures |ts| == |ps|
    ensures forall i :: 0 <= i < |ps| ==> ts[i].id == DefaultId(i)
  {
    seq(|ps|, i requires 0 <= i < |ps| =>
      var p := ps[i];
      LocalTemplate(DefaultId(i), p.name, p.workDuration, p.restDuration, p.rounds, p.sets, p.setRestDuration))
  }

  const Templates: seq<LocalTemplate> := WithDefaultIds(AppConfig.DefaultPresets)

  lemma DefaultIdInjective(a: nat, b: nat)
    ensures DefaultId(a) == DefaultId(b) ==> a == b
  {
    if DefaultId(a) == DefaultId(b) {
      var n := |"default-"|;
      assert DefaultId(a)[n..] == NatToString(a);
      assert DefaultId(b)[n..] == NatToString(b);
      NatToStringInjective(a, b);
    }
  }

  /** Positional ids never collide, whatever the presets are, and each
      listed template carries its preset's name and numbers. */
  lemma DefaultIdsDistinct(ps: seq<AppConfig.Preset>)
    ensures forall i, j :: 0 <= i < j < |ps| ==> WithDefaultIds(ps)[i].id != WithDefaultIds(ps)[j].id
    ensures forall i :: 0 <= i < |ps| ==>
      SelectTemplate(WithDefaultIds(ps)[i]) == Selection(AppConfig.PresetConfig(ps[i]), ps[i].name)
  {
    var ts := WithDefaultIds(ps);
    forall i, j | 0 <= i < j < |ps|
      ensures ts[i].id != ts[j].id
    {
      DefaultIdInjective(i, j);
    }
  }

  /** What the shared timer context holds: the plan and the highlighted name. */
  datatype Selection = Selection(config: Timer.Config, templateName: string)

  const InitialSelection: Selection :=
    Selection(AppConfig.ContextDefaultConfig, AppConfig.DefaultPresets[0].name)

  /** `handleSelectTemplate`: copy the numbers into the plan and remember the name. */
  function SelectTemplate(t: LocalTemplate): (sel: Selection)
    ensures sel.config.workDuration == t.workDuration
    ensures sel.config.restDuration == t.restDuration
    ensures sel.config.rounds == t.rounds
    ensures sel.config.sets == t.sets
    ensures sel.config.setRestDuration == t.setRestDuration
    ensures sel.templateName == t.name
  {
    Selection(Timer.Config(t.workDuration, t.restDuration, t.rounds, t.sets, t.setRestDuration), t.name)
  }

  /** A listed template is highlighted when its name is the selected one. */
  predicate Highlighted(sel: Selection, t: LocalTemplate) {
    sel.templateName == t.name
  }

  /** Before any choice, the first bundled template is the one shown as
      selected, and choosing it again changes nothing. */
  lemma FirstTemplateIsInitialSelection()
    ensures Highlighted(InitialSelection, Templates[0])
    ensures SelectTemplate(Templates[0]) == InitialSelection
    ensures forall i :: 1 <= i < |Templates| ==> !Highlighted(InitialSelection, Templates[i])
  {
  }

  /** The create form: every input is text. */
  datatype Form = Form(
    name: string,
    workText: string,
    restText: string,
    roundsText: string,
    setsText: string,
    setRestText: string)

  const InitialForm := Form("", "20", "10", "8", "1", "60")

  /** The inputs the form shows; sets and set rest have none. */
  datatype Edit = EditName(text: string) | EditWork(text: string) | EditRest(text: string) | EditRounds(text: string)

  /** One keystroke's `onChangeText`: the edited input takes the new text,
      every other input keeps its own. */
  function ApplyEdit(f: Form, e: Edit): (r: Form)
    ensures r.setsText == f.setsText && r.setRestText == f.setRestText
    ensures r.name == (if e.EditName? then e.text else f.name)
    ensures r.workText == (if e.EditWork? then e.text else f.workText)
    ensures r.restText == (if e.EditRest? then e.text else f.restText)
    ensures r.roundsText == (if e.EditRounds? then e.text else f.roundsText)
  {
    match e
    case EditName(t) => f.(name := t)
    case EditWork(t) => f.(workText := t)
    case EditRest(t) => f.(restText := t)
    case EditRounds(t) => f.(roundsText := t)
  }

  function ApplyEdits(f: Form, es: seq<Edit>): Form {
    if |es| == 0 then f else ApplyEdit(ApplyEdits(f, es[..|es| - 1]), es[|es| - 1])
  }

  /** The outcome of the create button: the template made, if any, and the
      selection afterwards. The listed templates never change. */
  datatype Creation = Creation(created: Option<LocalTemplate>, selection: Selection)

  /** `parseInt(text) || d`: the number typed, unless it reads as NaN or 0. */
  function NumberOr(text: string, d: int): (r: int)
    ensures r != d ==> ParseInt(text) == Int(r) && r != 0
    ensures ParseInt(text).NaN? || ParseInt(text) == Int(0) ==> r == d
    ensures ParseInt(text).Int? && ParseInt(text).value != 0 ==> r == ParseInt(text).value
  {
    OrDefault(ParseInt(text), d)
  }

  /** `handleCreateTemplate`, with `Date.now()` given as `now`. */
  function CreateTemplate(f: Form, sel: Selection, now: int): (r: Creation)
    ensures r.created.None? <==> IsBlank(f.name)
    ensures r.created.None? ==> r.selection == sel
    ensures r.created.Some? ==>
      var t := r.created.value;
      t.name == f.name && r.selection == SelectTemplate(t)
      && |t.id| > |"custom-"| && t.id[..|"custom-"|] == "custom-"
      && ParseInt(t.id[|"custom-"|..]) == Int(now)
    ensures r.created.Some? ==>
      var t := r.created.value;
      t.workDuration == NumberOr(f.workText, 20) && t.restDuration == NumberOr(f.restText, 10)
      && t.rounds == NumberOr(f.roundsText, 8) && t.sets == NumberOr(f.setsText, 1)
      && t.setRestDuration == NumberOr(f.setRestText, 60)
  {
    TrimEmptyIffBlank(f.name);
    if Trim(f.name) == "" then Creation(None, sel)
    else
      var id := "custom-" + IntToString(now);
      assert id[|"custom-"|..] == IntToString(now);
      ParseIntOfIntToString(now);
      var t := LocalTemplate(
        id, f.name,
        NumberOr(f.workText, 20), NumberOr(f.restText, 10), NumberOr(f.roundsText, 8),
        NumberOr(f.setsText, 1), NumberOr(f.setRestText, 60));
      Creation(Some(t), SelectTemplate(t))
  }

  /** A non-zero number typed as its decimal text is kept, negative numbers
      included. */
  lemma NumberOrKeepsNonZero(n: int, d: int)
    requires n != 0
    ensures NumberOr(IntToString(n), d) == n
  {
    ParseIntOfIntToString(n);
  }

  /** Zero, or text without digits, gives the default. */
  lemma NumberOrDefaults(d: int)
    ensures NumberOr(IntToString(0), d) == d
    ensures NumberOr("", d) == d
  {
    assert IntToString(0) == "0";
    assert DigitsValue("0") == 0 by { assert "0"[..0] == ""; }
    ParseIntOfDigits("0");
    assert TrimStart("") == "";
  }

  /** A number is taken from its text exactly when the text reads as a
      non-zero integer. */
  lemma NumberOrIffNonZero(text: string, d: int)
    ensures NumberOr(text, d) != d ==> ParseInt(text).Int? && ParseInt(text).value == NumberOr(text, d)
    ensures (ParseInt(text).NaN? || ParseInt(text) == Int(0)) ==> NumberOr(text, d) == d
  {
  }

  /** Editing leaves the inputs that have no field on screen alone. */
  lemma {:induction false} EditsKeepHiddenFields(f: Form, es: seq<Edit>)
    ensures ApplyEdits(f, es).setsText == f.setsText
    ensures ApplyEdits(f, es).setRestText == f.setRestText
  {
    if |es| > 0 {
      EditsKeepHiddenFields(f, es[..|es| - 1]);
    }
  }

  /** However the form is filled in, a created template has one set and a
      60 second set rest. */
  lemma CreatedTemplateHasOneSet(es: seq<Edit>, sel: Selection, now: int)
    ensures
      var r := CreateTemplate(ApplyEdits(InitialForm, es), sel, now);
      r.created.Some? ==> r.created.value.sets == 1 && r.created.value.setRestDuration == 60
  {
    var f := ApplyEdits(InitialForm, es);
    EditsKeepHiddenFields(InitialForm, es);
    assert f.setsText == "1" && f.setRestText == "60";
    assert DigitsValue("1") == 1 by { assert "1"[..0] == ""; }
    assert DigitsValue("60") == 60 by { assert "60"[..1] == "6"; assert "6"[..0] == ""; }
    ParseIntOfDigits("1");
    ParseIntOfDigits("60");
    assert NumberOr(f.setsText, 1) == 1;
    assert NumberOr(f.setRestText, 60) == 60;
  }

  /** The name is checked trimmed but stored as typed. */
  lemma UntrimmedNameIsStored(now: int)
    ensures
      var r := CreateTemplate(InitialForm.(name := " Core "), InitialSelection, now);
      r.created.Some? && r.created.value.name == " Core " && r.selection.templateName == " Core "
  {
    assert " Core "[1] == 'C' && !IsSpace('C');
  }
}
