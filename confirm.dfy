/** The yes/no prompt of `helper.py`: answers are read until one of them is
    decisive; the answers the user gives are a finite sequence, and running
    out of them is `input()` raising `EOFError`. */
module Confirm {
  import opened Wrappers
  import opened Strings
  import opened Exceptions

  datatype Answer = Default | Yes | No | Invalid

  /** `ans.strip().lower()` */
  function Normalise(ans: string): string {
    Lower(Strip(ans))
  }

  /** What one answer means once trimmed and lower-cased. */
  function Classify(ans: string): Answer {
    Meaning(Normalise(ans))
  }

  /** The meaning of a normalised answer. */
  function Meaning(n: string): Answer {
    if n == "" then Default
    else if n == "y" || n == "yes" then Yes
    else if n == "n" || n == "no" then No
    else Invalid
  }

  /** The hint after the prompt; the capital letter is the default. */
  function Suffix(default: bool): string {
    if default then " [Y/n]: " else " [y/N]: "
  }

  /** The result of the prompt for the answers from index `from` on: the
      first decisive answer decides, and running out raises `EOFError`. */
  function DecideFrom(default: bool, answers: seq<string>, from: nat): Result<bool, Exception>
    requires from <= |answers|
    decreases |answers| - from
  {
    if from == |answers| then Err(EOFError)
    else
      match Classify(answers[from])
      case Default => Ok(default)
      case Yes => Ok(true)
      case No => Ok(false)
      case Invalid => DecideFrom(default, answers, from + 1)
  }

  /** The result of the prompt for a given sequence of answers. */
  function Decide(default: bool, answers: seq<string>): Result<bool, Exception> {
    DecideFrom(default, answers, 0)
  }

  /** How many times the prompt is shown from index `from` on: once per
      answer read, and once more when the answers run out. */
  function PromptsFrom(answers: seq<string>, from: nat): nat
    requires from <= |answers|
    decreases |answers| - from
  {
    if from == |answers| then 1
    else if Classify(answers[from]) != Invalid then 1
    else 1 + PromptsFrom(answers, from + 1)
  }

  function PromptCount(answers: seq<string>): nat {
    PromptsFrom(answers, 0)
  }

  /** `confirm(prompt, default)`: shows the prompt with its suffix and reads
      answers until one is decisive. Besides the result, `shown` lists the
      prompts printed. */
  method Ask(prompt: string, default: bool, answers: seq<string>)
    returns (r: Result<bool, Exception>, shown: seq<string>)
    ensures r == Decide(default, answers)
    ensures |shown| == PromptCount(answers)
    ensures forall i :: 0 <= i < |shown| ==> shown[i] == prompt + Suffix(default)
  {
    var suffix := if default then " [Y/n]: " else " [y/N]: ";
    shown := [];
    var i := 0;
    while true
      invariant 0 <= i <= |answers|
      invariant Decide(default, answers) == DecideFrom(default, answers, i)
      invariant PromptCount(answers) == i + PromptsFrom(answers, i)
      invariant |shown| == i
      invariant forall k :: 0 <= k < |shown| ==> shown[k] == prompt + Suffix(default)
      decreases |answers| - i
    {
      shown := shown + [prompt + suffix];
      if i == |answers| {
        return Err(EOFError), shown;
      }
      var ans := Classify(answers[i]);
      if ans == Default {
        return Ok(default), shown;
      }
      if ans == Yes {
        return Ok(true), shown;
      }
      if ans == No {
        return Ok(false), shown;
      }
      i := i + 1;
    }
  }

  /** Invalid answers have no effect on the result: it is decided by what
      follows them. */
  lemma {:induction false} DecideSkipsInvalid(default: bool, answers: seq<string>, from: nat, to: nat)
    requires from <= to <= |answers|
    requires forall j :: from <= j < to ==> Classify(answers[j]) == Invalid
    ensures DecideFrom(default, answers, from) == DecideFrom(default, answers, to)
    decreases |answers| - from
  {
    if from < to {
      DecideSkipsInvalid(default, answers, from + 1, to);
    }
  }

  /** The prompt fails exactly when no answer is decisive. */
  lemma {:induction false} DecideFails(default: bool, answers: seq<string>, from: nat)
    requires from <= |answers|
    ensures DecideFrom(default, answers, from) == Err(EOFError)
            <==> forall j :: from <= j < |answers| ==> Classify(answers[j]) == Invalid
    decreases |answers| - from
  {
    if from < |answers| {
      var a := Classify(answers[from]);
      if a == Invalid {
        DecideFails(default, answers, from + 1);
      } else {
        assert DecideFrom(default, answers, from).Ok?;
      }
    }
  }

  /** Otherwise the first decisive answer gives the result. */
  lemma FirstDecisive(default: bool, answers: seq<string>, k: nat)
    requires k < |answers| && Classify(answers[k]) != Invalid
    requires forall j :: 0 <= j < k ==> Classify(answers[j]) == Invalid
    ensures Decide(default, answers) == Outcome(default, Classify(answers[k]))
  {
    DecideSkipsInvalid(default, answers, 0, k);
  }

  function Outcome(default: bool, a: Answer): Result<bool, Exception> {
    match a
    case Default => Ok(default)
    case Yes => Ok(true)
    case No => Ok(false)
    case Invalid => Err(EOFError)
  }

  /** An answer is the default answer exactly when it is blank. */
  lemma BlankIsDefault(ans: string)
    ensures Classify(ans) == Default <==> forall i :: 0 <= i < |ans| ==> IsSpace(ans[i])
  {
    var l := LStripBy(ans, IsSpace);
    LStripByShape(ans, IsSpace);
    if l != [] {
      KeepsFirst(l);
    }
    LStripByRemoved(ans, IsSpace);
    if forall i :: 0 <= i < |ans| ==> IsSpace(ans[i]) {
      BlankStrips(ans);
    }
  }

  lemma KeepsFirst(l: string)
    requires l != [] && !IsSpace(l[0])
    ensures RStripBy(l, IsSpace) != []
  {
  }

  lemma {:induction false} BlankStrips(s: string)
    requires forall i :: 0 <= i < |s| ==> IsSpace(s[i])
    ensures LStripBy(s, IsSpace) == []
  {
    if s != [] {
      BlankStrips(s[1..]);
    }
  }

  /** Case does not matter: an answer means the same as its lower-cased
      form. */
  lemma ClassifyIgnoresCase(ans: string)
    ensures Classify(Lower(ans)) == Classify(ans)
  {
    LStripLower(ans);
    RStripLower(LStripBy(ans, IsSpace));
    assert Strip(Lower(ans)) == Lower(Strip(ans));
    LowerIdempotent(Strip(ans));
    assert Normalise(Lower(ans)) == Normalise(ans);
  }

  /** Surrounding white space does not matter either. */
  lemma ClassifyIgnoresSpace(ans: string)
    ensures Classify(Strip(ans)) == Classify(ans)
  {
    StripByIdempotent(ans, IsSpace);
    assert Normalise(Strip(ans)) == Normalise(ans);
  }

  lemma LowerIdempotent(s: string)
    ensures Lower(Lower(s)) == Lower(s)
  {
    LowerAt(s);
    LowerAt(Lower(s));
    assert forall i :: 0 <= i < |s| ==> Lower(Lower(s))[i] == Lower(s)[i];
  }

  lemma LowerCharSpace(c: char)
    ensures IsSpace(LowerChar(c)) <==> IsSpace(c)
  {
  }

  lemma {:induction false} LStripLower(s: string)
    ensures LStripBy(Lower(s), IsSpace) == Lower(LStripBy(s, IsSpace))
  {
    if s != [] {
      LowerCharSpace(s[0]);
      if IsSpace(s[0]) {
        assert Lower(s)[1..] == Lower(s[1..]);
        LStripLower(s[1..]);
      }
    }
  }

  lemma {:induction false} RStripLower(s: string)
    ensures RStripBy(Lower(s), IsSpace) == Lower(RStripBy(s, IsSpace))
  {
    if s != [] {
      LowerCharSpace(s[|s| - 1]);
      LowerAt(s);
      LowerAt(s[..|s| - 1]);
      if IsSpace(s[|s| - 1]) {
        assert Lower(s)[..|s| - 1] == Lower(s[..|s| - 1]);
        RStripLower(s[..|s| - 1]);
      }
    }
  }
}
