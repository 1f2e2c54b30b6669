/** Acceptance of one verify window. */
module Mtp {
  import opened Target

  /** More drafts would not fit the stash, nor the kernel that scores a window. */
  const MOST_DRAFTS := 7

  /** Proposals per window, clamped from the environment. */
  function DraftTokens(setting: int): (k: nat)
    ensures 1 <= k <= MOST_DRAFTS
    ensures 1 <= setting <= MOST_DRAFTS ==> k == setting
  {
    if setting < 1 then 1 else if setting > MOST_DRAFTS then MOST_DRAFTS else setting
  }

  /** The number of leading drafts that the target sampled too. */
  method AcceptedPrefix(draft: seq<Token>, verified: seq<Token>) returns (count: nat)
    requires |draft| <= |verified|
    ensures count <= |draft| && draft[..count] == verified[..count]
    ensures count < |draft| ==> draft[count] != verified[count]
  {
    count := 0;
    while count < |draft|
      invariant count <= |draft| && draft[..count] == verified[..count]
    {
      if draft[count] != verified[count] {
        break;
      }
      count := count + 1;
    }
  }

  function Matched(draft: seq<Token>, verified: seq<Token>): (n: nat)
    requires |draft| <= |verified|
    ensures n <= |draft|
  {
    if draft == [] || draft[0] != verified[0] then 0 else 1 + Matched(draft[1..], verified[1..])
  }

  lemma {:induction false} MatchedIsMismatch(draft: seq<Token>, verified: seq<Token>)
    requires |draft| <= |verified|
    ensures var n := Matched(draft, verified);
            draft[..n] == verified[..n] && (n < |draft| ==> draft[n] != verified[n])
    decreases |draft|
  {
    if draft != [] && draft[0] == verified[0] {
      MatchedIsMismatch(draft[1..], verified[1..]);
      var n := Matched(draft, verified);
      assert draft[..n] == [draft[0]] + draft[1..][..n - 1];
      assert verified[..n] == [verified[0]] + verified[1..][..n - 1];
    }
  }

  lemma MatchedIsUnique(draft: seq<Token>, verified: seq<Token>, n: nat)
    requires n <= |draft| <= |verified| && draft[..n] == verified[..n]
    requires n < |draft| ==> draft[n] != verified[n]
    ensures n == Matched(draft, verified)
  {
    var m := Matched(draft, verified);
    MatchedIsMismatch(draft, verified);
    assert forall i :: 0 <= i < n ==> draft[..n][i] == verified[..n][i];
    assert forall i :: 0 <= i < m ==> draft[..m][i] == verified[..m][i];
  }

  datatype Emission = Wrong | Emission(tokens: seq<Token>, matched: nat)

  /** What the window keeps is a prefix of the target's own samples. */
  method EmittedTokens(draft: seq<Token>, samples: seq<Token>, most: nat) returns (e: Emission)
    ensures e == Wrong <==> |samples| != |draft| + 1 || draft == [] || |draft| > most
    ensures e != Wrong ==> e.matched == Matched(draft, samples) && e.tokens == samples[..e.matched + 1]
  {
    if |samples| != |draft| + 1 || draft == [] || |draft| > most {
      return Wrong;
    }
    var matched := AcceptedPrefix(draft, samples);
    MatchedIsUnique(draft, samples, matched);
    if matched == |draft| {
      return Emission(draft + [samples[|samples| - 1]], matched);
    }
    return Emission(draft[..matched] + [samples[matched]], matched);
  }
}
