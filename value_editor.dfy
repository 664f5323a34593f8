/** The inline editor of one global variable: checking typed text against the
    variable's kind and bounds, converting it on save, and the step buttons.

    JavaScript's `parseFloat`, `parseInt` and `String(number)` are not modelled; they
    are the parameters bundled in `Numerics`, with `None` standing for `NaN`. */
module VariableEditor {
  import opened Types

  datatype Numerics = Numerics(
    parseFloat: string -> Option<real>,
    parseInt: string -> Option<real>,
    show: real -> string)

  /** `String(value)` for the editor's text. */
  function ShowValue(n: Numerics, v: Value): string
  {
    match v
    case Num(x) => n.show(x)
    case NaN => "NaN"
    case Str(s) => s
    case Bool(b) => if b then "true" else "false"
  }

  /** `x` respects the bounds that are present. */
  predicate InBounds(x: real, min: Option<real>, max: Option<real>)
  {
    (min.None? || x >= min.value) && (max.None? || x <= max.value)
  }

  predicate IsNumeric(kind: GlobalKind)
  {
    kind == IntKind || kind == DoubleKind
  }

  /** `validateValue`: numeric text must parse (with `parseFloat`) to a number within
      the bounds; boolean text must be `true` or `false`; any other text is valid. */
  function ValidateValue(n: Numerics, v: GlobalVariable, text: string): (r: bool)
    ensures IsNumeric(v.kind) ==> (r <==> n.parseFloat(text).Some? && InBounds(n.parseFloat(text).value, v.min, v.max))
    ensures v.kind == BoolKind ==> (r <==> text == "true" || text == "false")
    ensures v.kind == StringKind || v.kind == DatetimeKind ==> r
  {
    if IsNumeric(v.kind) then
      match n.parseFloat(text)
      case None => false
      case Some(x) => InBounds(x, v.min, v.max)
    else if v.kind == BoolKind then text == "true" || text == "false"
    else true
  }

  /** The value `handleSave` hands on: `parseInt` for int, `parseFloat` for double,
      `text === 'true'` for bool, the text itself otherwise. */
  function SaveValue(n: Numerics, kind: GlobalKind, text: string): (r: Value)
    ensures kind == IntKind ==> r == (if n.parseInt(text).Some? then Num(n.parseInt(text).value) else NaN)
    ensures kind == DoubleKind ==> r == (if n.parseFloat(text).Some? then Num(n.parseFloat(text).value) else NaN)
    ensures kind == BoolKind ==> r == Bool(text == "true")
    ensures kind == StringKind || kind == DatetimeKind ==> r == Str(text)
  {
    match kind
    case IntKind => (match n.parseInt(text) case Some(x) => Num(x) case None => NaN)
    case DoubleKind => (match n.parseFloat(text) case Some(x) => Num(x) case None => NaN)
    case BoolKind => Bool(text == "true")
    case _ => Str(text)
  }

  /** A valid double is saved as a number within the bounds. */
  lemma SavedDoubleInBounds(n: Numerics, v: GlobalVariable, text: string)
    requires v.kind == DoubleKind && ValidateValue(n, v, text)
    ensures SaveValue(n, v.kind, text).Num?
    ensures InBounds(SaveValue(n, v.kind, text).num, v.min, v.max)
  {
  }

  /** Valid boolean text and any string or date text survive a save and a redisplay
      unchanged. */
  lemma SaveShowRoundTrip(n: Numerics, v: GlobalVariable, text: string)
    requires ValidateValue(n, v, text) && !IsNumeric(v.kind)
    ensures ShowValue(n, SaveValue(n, v.kind, text)) == text
  {
  }

  /** The int check reads the text with `parseFloat` while the save reads it with
      `parseInt`. For `15e-1` JavaScript gives 1.5 and 15, so an int variable bounded
      by 10 accepts the text and stores 15. */
  lemma AsWrittenIntSaveEscapesBounds()
    ensures var n := Numerics((s: string) => if s == "15e-1" then Some(1.5) else None,
                              (s: string) => if s == "15e-1" then Some(15.0) else None,
                              (x: real) => "");
      var v := GlobalVariable("p", "p", IntKind, Num(5.0), Num(5.0), "", Some(1.0), Some(10.0), None, [], false);
      && ValidateValue(n, v, "15e-1")
      && SaveValue(n, v.kind, "15e-1") == Num(15.0)
      && !InBounds(15.0, v.min, v.max)
  {
  }

  /** The evidently intended check: the bounds are checked on the number that is
      saved, so an int is read with `parseInt` for the check as well. */
  function ValidateSaved(n: Numerics, v: GlobalVariable, text: string): (r: bool)
    ensures !IsNumeric(v.kind) ==> r == ValidateValue(n, v, text)
    ensures v.kind == DoubleKind ==> r == ValidateValue(n, v, text)
  {
    if v.kind == IntKind then
      match n.parseInt(text)
      case None => false
      case Some(x) => InBounds(x, v.min, v.max)
    else ValidateValue(n, v, text)
  }

  /** Under the intended check every accepted numeric text is saved as a number within
      the bounds. */
  lemma ValidateSavedKeepsBounds(n: Numerics, v: GlobalVariable, text: string)
    requires IsNumeric(v.kind) && ValidateSaved(n, v, text)
    ensures SaveValue(n, v.kind, text).Num?
    ensures InBounds(SaveValue(n, v.kind, text).num, v.min, v.max)
  {
  }

  /** `variable.step || 1`: a missing or zero step is 1. */
  function StepOf(step: Option<real>): (r: real)
    ensures r != 0.0
    ensures step.Some? && step.value != 0.0 ==> r == step.value
    ensures step.None? || step.value == 0.0 ==> r == 1.0
  {
    if step.Some? && step.value != 0.0 then step.value else 1.0
  }

  /** The number `handleIncrement` moves to, if it moves: one step up from the parsed
      text, provided that does not pass `max`. */
  function Incremented(n: Numerics, v: GlobalVariable, text: string): (r: Option<real>)
    ensures r.Some? <==>
      n.parseFloat(text).Some? && (v.max.None? || n.parseFloat(text).value + StepOf(v.step) <= v.max.value)
    ensures r.Some? ==> r.value == n.parseFloat(text).value + StepOf(v.step)
  {
    match n.parseFloat(text)
    case None => None
    case Some(x) =>
      var y := x + StepOf(v.step);
      if v.max.None? || y <= v.max.value then Some(y) else None
  }

  /** The number `handleDecrement` moves to, if it moves: one step down, provided that
      does not pass `min`. */
  function Decremented(n: Numerics, v: GlobalVariable, text: string): (r: Option<real>)
    ensures r.Some? <==>
      n.parseFloat(text).Some? && (v.min.None? || n.parseFloat(text).value - StepOf(v.step) >= v.min.value)
    ensures r.Some? ==> r.value == n.parseFloat(text).value - StepOf(v.step)
  {
    match n.parseFloat(text)
    case None => None
    case Some(x) =>
      var y := x - StepOf(v.step);
      if v.min.None? || y >= v.min.value then Some(y) else None
  }

  function IncrementText(n: Numerics, v: GlobalVariable, text: string): string
  {
    match Incremented(n, v, text)
    case Some(y) => n.show(y)
    case None => text
  }

  function DecrementText(n: Numerics, v: GlobalVariable, text: string): string
  {
    match Decremented(n, v, text)
    case Some(y) => n.show(y)
    case None => text
  }

  /** With a positive step, a step up or down from a number within the bounds lands
      within the bounds again. */
  lemma StepsKeepInBounds(n: Numerics, v: GlobalVariable, text: string)
    requires n.parseFloat(text).Some? && InBounds(n.parseFloat(text).value, v.min, v.max)
    requires StepOf(v.step) > 0.0
    ensures Incremented(n, v, text).Some? ==> InBounds(Incremented(n, v, text).value, v.min, v.max)
    ensures Decremented(n, v, text).Some? ==> InBounds(Decremented(n, v, text).value, v.min, v.max)
  {
  }

  /** A step down undoes a step up, when the texts involved read back as the numbers
      they show. */
  lemma DecrementUndoesIncrement(n: Numerics, v: GlobalVariable, x: real)
    requires n.parseFloat(n.show(x)) == Some(x)
    requires n.parseFloat(n.show(x + StepOf(v.step))) == Some(x + StepOf(v.step))
    requires v.max.None? || x + StepOf(v.step) <= v.max.value
    requires v.min.None? || x >= v.min.value
    ensures DecrementText(n, v, IncrementText(n, v, n.show(x))) == n.show(x)
  {
    var up := IncrementText(n, v, n.show(x));
    assert up == n.show(x + StepOf(v.step));
    assert Decremented(n, v, up) == Some(x + StepOf(v.step) - StepOf(v.step));
    assert x + StepOf(v.step) - StepOf(v.step) == x;
  }

  /** The boolean toggle button saves `!currentValue`. */
  function BoolToggleValue(v: GlobalVariable): (r: Value)
    ensures r.Bool? && r.b == !Truthy(v.currentValue)
    ensures v.currentValue.Bool? ==> r == Bool(!v.currentValue.b)
  {
    Bool(!Truthy(v.currentValue))
  }

  lemma BoolToggleTwice(v: GlobalVariable)
    requires v.currentValue.Bool?
    ensures BoolToggleValue(v.(currentValue := BoolToggleValue(v))) == v.currentValue
  {
  }

  /** The editor's own state; the variable is the component's property and is passed
      to each handler. */
  class ValueEditor {
    var isEditing: bool
    var editValue: string
    var isValid: bool

    constructor(n: Numerics, v: GlobalVariable)
      ensures !isEditing && editValue == ShowValue(n, v.currentValue) && isValid
    {
      isEditing := false;
      editValue := ShowValue(n, v.currentValue);
      isValid := true;
    }

    method StartEdit(n: Numerics, v: GlobalVariable)
      modifies this`isEditing, this`editValue
      ensures isEditing && editValue == ShowValue(n, v.currentValue)
    {
      isEditing := true;
      editValue := ShowValue(n, v.currentValue);
    }

    /** The input's `onChange`. */
    method Type(text: string)
      modifies this`editValue
      ensures editValue == text
    {
      editValue := text;
    }

    /** `handleSave`: a valid text yields the one update to hand to `onUpdate` and ends
        editing; an invalid one yields none and marks the editor invalid. */
    method Save(n: Numerics, v: GlobalVariable) returns (update: Option<Value>)
      modifies this`isEditing, this`isValid
      ensures ValidateValue(n, v, editValue) ==>
        update == Some(SaveValue(n, v.kind, editValue)) && !isEditing && isValid
      ensures !ValidateValue(n, v, editValue) ==>
        update == None && isEditing == old(isEditing) && !isValid
    {
      if ValidateValue(n, v, editValue) {
        update := Some(SaveValue(n, v.kind, editValue));
        isEditing := false;
        isValid := true;
      } else {
        update := None;
        isValid := false;
      }
    }

    method Cancel(n: Numerics, v: GlobalVariable)
      modifies this
      ensures !isEditing && editValue == ShowValue(n, v.currentValue) && isValid
    {
      isEditing := false;
      editValue := ShowValue(n, v.currentValue);
      isValid := true;
    }

    /** `handleKeyDown`: Enter saves, Escape cancels, other keys do nothing. */
    method KeyDown(n: Numerics, v: GlobalVariable, key: string) returns (update: Option<Value>)
      modifies this
      ensures key != "Enter" && key != "Escape" ==>
        update == None && isEditing == old(isEditing) && editValue == old(editValue) && isValid == old(isValid)
      ensures key == "Escape" ==> update == None && !isEditing && editValue == ShowValue(n, v.currentValue) && isValid
      ensures key == "Enter" ==> editValue == old(editValue)
      ensures key == "Enter" && ValidateValue(n, v, old(editValue)) ==>
        update == Some(SaveValue(n, v.kind, old(editValue))) && !isEditing && isValid
      ensures key == "Enter" && !ValidateValue(n, v, old(editValue)) ==>
        update == None && isEditing == old(isEditing) && !isValid
    {
      update := None;
      if key == "Enter" {
        update := Save(n, v);
      } else if key == "Escape" {
        Cancel(n, v);
      }
    }

    method Increment(n: Numerics, v: GlobalVariable)
      modifies this`editValue
      ensures editValue == IncrementText(n, v, old(editValue))
    {
      editValue := IncrementText(n, v, editValue);
    }

    method Decrement(n: Numerics, v: GlobalVariable)
      modifies this`editValue
      ensures editValue == DecrementText(n, v, old(editValue))
    {
      editValue := DecrementText(n, v, editValue);
    }
  }
}
