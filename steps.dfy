/**
 * Action steps and next steps are edited as one text area, a step per line,
 * and stored as a list: `text.split('\n').filter(step => step.trim() !== '')`.
 */
module Steps {
  import opened Seqs
  import opened Text

  /** A step worth keeping: something other than white space. */
  predicate NotBlank(s: string)
  {
    !IsBlank(s)
  }

  /** A step the text area can show and read back unchanged. */
  predicate CleanStep(s: string)
  {
    NotBlank(s) && '\n' !in s
  }

  /** The lines of `text` that are not blank, untrimmed and in order. */
  function ParseSteps(text: string): (r: seq<string>)
    ensures |r| <= |Split(text, '\n')|
    ensures forall i :: 0 <= i < |r| ==> CleanStep(r[i]) && r[i] in Split(text, '\n')
  {
    FilterMembers(Split(text, '\n'), NotBlank);
    Filter(Split(text, '\n'), NotBlank)
  }

  /** A text with no blank line yields exactly its lines. */
  lemma ParseStepsSingleLine(line: string)
    requires '\n' !in line
    ensures ParseSteps(line) == if IsBlank(line) then [] else [line]
  {
    SplitNoSep(line, '\n');
  }

  /** A first line followed by the rest: the first line's step, if any, comes first. */
  lemma ParseStepsCons(line: string, rest: string)
    requires '\n' !in line
    ensures ParseSteps(line + "\n" + rest) == ParseSteps(line) + ParseSteps(rest)
  {
    SplitPrefix(line, '\n', rest);
    SplitNoSep(line, '\n');
    FilterConcat([line], Split(rest, '\n'), NotBlank);
  }

  /** Joining clean steps with newlines and parsing the text gives back the steps. */
  lemma StepsRoundTrip(steps: seq<string>)
    requires forall i :: 0 <= i < |steps| ==> CleanStep(steps[i])
    ensures ParseSteps(Join(steps, "\n")) == steps
  {
    if steps == [] {
      assert Split("", '\n') == [""];
      assert IsBlank("");
      assert Filter([""], NotBlank) == [];
    } else {
      SplitJoin(steps, '\n');
      FilterAll(steps, NotBlank);
    }
  }

  /** A clean first line followed by clean steps parses as that line, then those steps. */
  lemma StepsRoundTripAfter(line: string, steps: seq<string>)
    requires CleanStep(line) && forall i :: 0 <= i < |steps| ==> CleanStep(steps[i])
    ensures ParseSteps(line + "\n" + Join(steps, "\n")) == [line] + steps
  {
    StepsRoundTrip(steps);
    ParseStepsCons(line, Join(steps, "\n"));
    ParseStepsSingleLine(line);
  }

  /** `steps.filter(s => s.trim())`, for steps that are already a list. */
  function KeepNonBlank(steps: seq<string>): (r: seq<string>)
    ensures |r| <= |steps|
    ensures forall i :: 0 <= i < |r| ==> NotBlank(r[i]) && r[i] in steps
    ensures forall i :: 0 <= i < |steps| && NotBlank(steps[i]) ==> steps[i] in r
  {
    FilterMembers(steps, NotBlank);
    Filter(steps, NotBlank)
  }
}
