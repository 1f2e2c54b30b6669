/** The turn's callback: what is shown after a window, and when reasoning is closed. */
module Acceptor {
  import opened Target
  import opened Decode
  import opened Account

  class Acceptor {
    const stop: Token
    /** Reasoning budget; 0 for none. */
    const cap: nat
    const closeIds: seq<Token>
    const maximum: nat
    /** How many produced ids have been handled, the injected ones included. */
    var seen: nat
    var visible: seq<Token>
    var reasoningTokens: nat
    var closed: bool
    /** Every answer so far. */
    ghost var answers: seq<Directive>

    /** Only one of its answers can be a close, and only of its own ids. */
    ghost predicate Valid()
      reads this
    {
      CloseOnce(answers, closeIds) && (closed <==> Closes(answers))
    }

    constructor (stop: Token, cap: nat, closeIds: seq<Token>, maximum: nat)
      ensures this.stop == stop && this.cap == cap && this.closeIds == closeIds && this.maximum == maximum
      ensures Valid() && seen == 0 && visible == [] && reasoningTokens == 0 && !closed && answers == []
    {
      this.stop, this.cap, this.closeIds, this.maximum := stop, cap, closeIds, maximum;
      seen, visible, reasoningTokens, closed, answers := 0, [], 0, false, [];
    }

    /** `before` and `after`: whether the parser is in reasoning before and after it is
        fed the new text. */
    method OnAccepted(produced: seq<Token>, before: bool, after: bool, cancelled: bool) returns (d: Directive)
      requires Valid() && seen <= |produced|
      modifies this
      ensures Valid() && answers == old(answers) + [d]
      // What it has seen is what the turn has produced, once the directive is applied.
      ensures produced != [] ==>
                forall spoken :: spoken != [] ==> seen == |Inject(d, Speech(spoken, produced)).produced|
      // Reasoning is closed at most once, by the budget or by a stop inside it.
      ensures d.Close? ==> !old(closed) && closed && after && !cancelled && d.inject == closeIds
      ensures d.Nothing? ==> closed == old(closed)
      ensures d.Close? ==> produced != [] && (d.dropLast <==> Last(produced) == stop)
      ensures d.Close? ==> (d.halt <==> seen >= maximum)
      ensures !cancelled && after && !old(closed) && old(seen) < |produced| ==>
                (d.Close? <==> Last(produced) == stop || (cap > 0 && reasoningTokens >= cap))
      // The stop id and injected ids are never shown; every other new id is.
      ensures visible == old(visible) +
                if old(seen) < |produced| && Last(produced) == stop then Init(produced)[old(seen)..]
                                        else produced[old(seen)..]
      ensures reasoningTokens == old(reasoningTokens) + if before then |produced| - old(seen) else 0
    {
      d := Nothing;
      var news := produced[seen..];
      if news != [] {
        var hitStop := Last(produced) == stop;
        visible := visible + (if hitStop then Init(produced)[seen..] else news);
        if before {
          reasoningTokens := reasoningTokens + |news|;
        }
        seen := |produced|;
        var hitBudget := cap > 0 && reasoningTokens >= cap;
        if !cancelled && !closed && after && (hitBudget || hitStop) {
          if hitStop {
            seen := seen - 1;
          }
          seen := seen + |closeIds|;
          closed := true;
          var leftover := maximum - (|produced| - (if hitStop then 1 else 0) + |closeIds|);
          d := Close(hitStop, closeIds, leftover <= 0);
        }
      }
      ClosesSnoc(answers, d);
      answers := answers + [d];
    }
  }

  ghost predicate Closes(answers: seq<Directive>) {
    exists i :: 0 <= i < |answers| && answers[i].Close?
  }

  lemma ClosesSnoc(answers: seq<Directive>, d: Directive)
    ensures Closes(answers + [d]) <==> Closes(answers) || d.Close?
  {
    var all := answers + [d];
    if d.Close? {
      assert all[|answers|].Close?;
    }
    if Closes(answers) {
      var i :| 0 <= i < |answers| && answers[i].Close?;
      assert all[i].Close?;
    }
    if Closes(all) {
      var i :| 0 <= i < |all| && all[i].Close?;
      assert i < |answers| ==> answers[i].Close?;
    }
  }

  /** At most one answer closes, and it injects `ids`. */
  ghost predicate CloseOnce(answers: seq<Directive>, ids: seq<Token>) {
    && (forall i :: 0 <= i < |answers| && answers[i].Close? ==> answers[i].inject == ids)
    && (forall i, j :: 0 <= i < j < |answers| && answers[i].Close? ==> answers[j].Nothing?)
  }

  /** The callback of a whole turn, as the window loop asks it: one answer a window. */
  function ListenerOf(answers: seq<Directive>): Listener {
    Listener((w: nat, produced: seq<Token>) => if w < |answers| then answers[w] else Nothing, |answers|)
  }

  /** Such a callback injects at most the close ids, loses no token when there are any,
      and falls silent after its one close. */
  lemma ClosesAre(answers: seq<Directive>, ids: seq<Token>)
    requires CloseOnce(answers, ids)
    ensures InjectsAtMost(ListenerOf(answers), |ids|)
    ensures ids != [] ==> NeverLoses(ListenerOf(answers))
    ensures forall v, w, x, y :: v < w && Ask(ListenerOf(answers), v, x).Close? ==>
              Ask(ListenerOf(answers), w, y).Nothing?
  {
  }
}
