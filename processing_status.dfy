/** The progress indicator: the step text is matched against a fixed list of nine steps by
    its first word, and the bar shows how far down the list the match is. */
module ProcessingStatus {
  import opened Numeric
  import opened Strings

  const Steps: seq<string> := [
    "Uploading PDF...",
    "Detecting text areas...",
    "Cropping images...",
    "Translating text with AI...",
    "Processing PDF...",
    "Adding Hebrew text...",
    "Embedding logo...",
    "Removing Chinese text...",
    "Generating final PDF..."]

  /** `step.toLowerCase().split(' ')[0]`. */
  function FirstWord(step: string): (w: string)
    ensures w <= Lower(step)
  {
    SplitFirstPrefix(Lower(step), ' ');
    Split(Lower(step), ' ')[0]
  }

  predicate StepMatches(s: string, word: string) {
    Contains(Lower(s), word)
  }

  /** `findIndex` over `steps` from position `from` on. */
  function FindFrom(steps: seq<string>, word: string, from: nat): (r: int)
    requires from <= |steps|
    ensures r == -1 || from <= r < |steps|
    ensures r >= 0 ==> StepMatches(steps[r], word)
    ensures r >= 0 ==> forall k :: from <= k < r ==> !StepMatches(steps[k], word)
    ensures r == -1 ==> forall k :: from <= k < |steps| ==> !StepMatches(steps[k], word)
    decreases |steps| - from
  {
    if from == |steps| then -1
    else if StepMatches(steps[from], word) then from
    else FindFrom(steps, word, from + 1)
  }

  /** `getCurrentStepIndex`. */
  function StepIndex(step: string): (r: int)
    ensures -1 <= r < |Steps|
  {
    FindFrom(Steps, FirstWord(step), 0)
  }

  /** `Math.min(100, (index + 1) * (100 / steps.length))`, in percent. */
  function Progress(index: int): (p: real)
    requires -1 <= index < |Steps|
    ensures 0.0 <= p <= 100.0
    ensures index == -1 ==> p == 0.0
  {
    Min(100.0, (index + 1) as real * (100.0 / 9.0))
  }

  /** The index is the first step whose lower-cased text contains the first word of the
      lower-cased input, and -1 (an empty bar) when there is none. */
  lemma StepIndexSpec(step: string)
    ensures var w := FirstWord(step); var r := StepIndex(step);
      (r >= 0 ==> StepMatches(Steps[r], w) && forall k :: 0 <= k < r ==> !StepMatches(Steps[k], w))
      && (r == -1 <==> forall k :: 0 <= k < |Steps| ==> !StepMatches(Steps[k], w))
      && (r == -1 ==> Progress(r) == 0.0)
  {
    FindFromFirst(Steps, FirstWord(step));
  }

  /** A search from the start finds the first match, and fails exactly when nothing matches. */
  lemma FindFromFirst(steps: seq<string>, word: string)
    ensures var r := FindFrom(steps, word, 0);
      (r >= 0 ==> StepMatches(steps[r], word) && forall k :: 0 <= k < r ==> !StepMatches(steps[k], word))
      && (r == -1 <==> forall k :: 0 <= k < |steps| ==> !StepMatches(steps[k], word))
  {
  }

  /** A step announced with one of the listed texts is found at its own position or earlier. */
  lemma ListedStepFound(k: int)
    requires 0 <= k < |Steps|
    ensures 0 <= StepIndex(Steps[k]) <= k
  {
    var w := FirstWord(Steps[k]);
    assert StepMatches(Steps[k], w);
  }

  /** An empty step text matches the first step: its first word is empty, and every text
      contains the empty string. */
  lemma EmptyStepIsFirst()
    ensures StepIndex("") == 0
  {
    assert FirstWord("") == "";
    assert StepMatches(Steps[0], "");
  }

  /** The bar grows with the index. */
  lemma ProgressMonotone(i: int, j: int)
    requires -1 <= i <= j < |Steps|
    ensures Progress(i) <= Progress(j)
  {
    assert (i + 1) as real * (100.0 / 9.0) <= (j + 1) as real * (100.0 / 9.0);
  }
}
