/**
 * The example calculator artifact: its input line, the scrolling history
 * of expression and result lines, the angle mode and the counter that
 * numbers the history lines. Evaluating an expression is a parameter.
 */
module Calculator {
  import opened Wrappers
  import opened JsStrings

  datatype LineKind = ExpressionLine | ResultLine

  /** `DisplayLine` */
  datatype DisplayLine = DisplayLine(kind: LineKind, content: string, id: int)

  /** How running the rewritten expression ended. */
  datatype EvalOutcome =
    | Threw
    | NotANumber
      /** A number: whether it is NaN, and its `toString()`. */
    | NumberValue(isNaN: bool, text: string)

  const ErrorText: string := "Error"

  /** `safeEvaluate`'s answer for an evaluation outcome: never a failure, `'Error'` for anything but a number. */
  function SafeEvaluate(outcome: EvalOutcome): (r: string)
    ensures r == ErrorText <==> !(outcome.NumberValue? && !outcome.isNaN) || outcome.text == ErrorText
    ensures outcome.NumberValue? && !outcome.isNaN ==> r == outcome.text
  {
    match outcome
    case NumberValue(false, text) => text
    case _ => ErrorText
  }

  /** `s.slice(0, start) + ins + s.slice(end)` */
  function Splice(s: string, start: nat, end: nat, ins: string): string {
    SliceTo(s, start) + ins + SliceFrom(s, end)
  }

  /**
   * For a selection inside the text, the splice keeps what is before and
   * after it and puts `ins` in its place.
   */
  lemma SpliceReplacesSelection(s: string, start: nat, end: nat, ins: string)
    requires start <= end <= |s|
    ensures var r := Splice(s, start, end, ins);
      && |r| == |s| - (end - start) + |ins|
      && r[..start] == s[..start]
      && r[start..start + |ins|] == ins
      && r[start + |ins|..] == s[end..]
  {
    var r := Splice(s, start, end, ins);
    assert r == s[..start] + ins + s[end..];
    assert r[..start] == s[..start];
    assert r[start..start + |ins|] == ins;
    assert r[start + |ins|..] == s[end..];
  }

  /** History lines numbered 0, 1, 2, ... in order, alternating expression and result. */
  predicate WellNumbered(lines: seq<DisplayLine>) {
    forall i :: 0 <= i < |lines| ==>
      lines[i].id == i && lines[i].kind == (if i % 2 == 0 then ExpressionLine else ResultLine)
  }

  /** The text input and its selection. */
  class TextInput {
    var selectionStart: Option<nat>
    var selectionEnd: Option<nat>

    constructor(start: Option<nat>, end: Option<nat>)
      ensures selectionStart == start && selectionEnd == end
    {
      selectionStart := start;
      selectionEnd := end;
    }
  }

  /** The calculator's state. */
  class TI83Calculator {
    var expression: string
    var displayLines: seq<DisplayLine>
    var isRadians: bool
    var lineCounter: int

    /** The counter is the number of history lines, which come in well-numbered pairs. */
    ghost predicate Valid()
      reads this
    {
      lineCounter == |displayLines| && |displayLines| % 2 == 0 && WellNumbered(displayLines)
    }

    constructor()
      ensures Valid()
      ensures expression == "" && displayLines == [] && isRadians && lineCounter == 0
    {
      expression := "";
      displayLines := [];
      isRadians := true;
      lineCounter := 0;
    }

    /**
     * `handleCalculate`: nothing for a blank expression; otherwise the
     * expression and its result are appended as the next two lines and the
     * input is cleared.
     */
    method HandleCalculate(evaluate: (string, bool) -> EvalOutcome)
      requires Valid()
      modifies this
      ensures Valid()
      ensures isRadians == old(isRadians)
      ensures IsBlank(old(expression)) ==>
        expression == old(expression) && displayLines == old(displayLines) && lineCounter == old(lineCounter)
      ensures !IsBlank(old(expression)) ==>
        && displayLines == old(displayLines) + [
             DisplayLine(ExpressionLine, old(expression), old(lineCounter)),
             DisplayLine(ResultLine, SafeEvaluate(evaluate(old(expression), isRadians)), old(lineCounter) + 1)]
        && lineCounter == old(lineCounter) + 2
        && expression == ""
    {
      if IsBlank(expression) {
        return;
      }
      var result := SafeEvaluate(evaluate(expression, isRadians));
      displayLines := displayLines + [
        DisplayLine(ExpressionLine, expression, lineCounter),
        DisplayLine(ResultLine, result, lineCounter + 1)];
      lineCounter := lineCounter + 2;
      expression := "";
    }

    /** `handleKeyPress`: Enter calculates, any other key does nothing here. */
    method HandleKeyPress(key: string, evaluate: (string, bool) -> EvalOutcome)
      requires Valid()
      modifies this
      ensures Valid()
      ensures key != "Enter" ==>
        expression == old(expression) && displayLines == old(displayLines)
        && lineCounter == old(lineCounter) && isRadians == old(isRadians)
      ensures key == "Enter" ==> isRadians == old(isRadians)
      ensures key == "Enter" && IsBlank(old(expression)) ==>
        expression == old(expression) && displayLines == old(displayLines) && lineCounter == old(lineCounter)
      ensures key == "Enter" && !IsBlank(old(expression)) ==>
        && displayLines == old(displayLines) + [
             DisplayLine(ExpressionLine, old(expression), old(lineCounter)),
             DisplayLine(ResultLine, SafeEvaluate(evaluate(old(expression), isRadians)), old(lineCounter) + 1)]
        && lineCounter == old(lineCounter) + 2
        && expression == ""
    {
      if key == "Enter" {
        HandleCalculate(evaluate);
      }
    }

    /**
     * `insertFunction`: replaces the selection with `func` and puts the
     * caret after it (clamped to the new text); nothing without an input.
     */
    method InsertFunction(func: string, input: TextInput?)
      modifies this, input
      ensures displayLines == old(displayLines) && lineCounter == old(lineCounter) && isRadians == old(isRadians)
      ensures input == null ==> expression == old(expression)
      ensures input != null ==>
        var start := old(input.selectionStart).GetOr(0);
        var end := old(input.selectionEnd).GetOr(0);
        var caret := if start + |func| <= |expression| then start + |func| else |expression|;
        && expression == Splice(old(expression), start, end, func)
        && input.selectionStart == Some(caret) && input.selectionEnd == Some(caret)
    {
      if input != null {
        var start := input.selectionStart.GetOr(0);
        var end := input.selectionEnd.GetOr(0);
        expression := SliceTo(expression, start) + func + SliceFrom(expression, end);
        var newPos := start + |func|;
        var caret := if newPos <= |expression| then newPos else |expression|;
        input.selectionStart := Some(caret);
        input.selectionEnd := Some(caret);
      }
    }

    /** `clearDisplay`: no history, no input, numbering from 0 again. */
    method ClearDisplay()
      modifies this
      ensures Valid()
      ensures displayLines == [] && expression == "" && lineCounter == 0 && isRadians == old(isRadians)
    {
      displayLines := [];
      expression := "";
      lineCounter := 0;
    }

    /** The "Clear Line" button: only the input is emptied. */
    method ClearLine()
      modifies this
      ensures expression == ""
      ensures displayLines == old(displayLines) && lineCounter == old(lineCounter) && isRadians == old(isRadians)
    {
      expression := "";
    }

    /** The RAD/DEG button: the other angle mode, nothing else. */
    method ToggleAngleMode()
      modifies this
      ensures isRadians == !old(isRadians)
      ensures expression == old(expression) && displayLines == old(displayLines) && lineCounter == old(lineCounter)
    {
      isRadians := !isRadians;
    }
  }
}
