/** Facts about sequences and recorded runs that several modules need. */
module Sequences {

  lemma Regroup<T>(a: seq<T>, b: seq<T>, c: seq<T>)
    ensures (a + b) + c == a + (b + c)
  {
  }

  function SetOf<T>(s: seq<T>): set<T> {
    set x | x in s
  }

  /** The steps of a run that satisfy `mine`, in order. */
  function StepsOf<T>(mine: T -> bool, run: seq<T>): seq<T> {
    if run == [] then []
    else StepsOf(mine, run[..|run| - 1]) + (if mine(run[|run| - 1]) then [run[|run| - 1]] else [])
  }

  lemma StepsOfAppend<T>(mine: T -> bool, run: seq<T>, step: T)
    ensures StepsOf(mine, run + [step]) == StepsOf(mine, run) + (if mine(step) then [step] else [])
  {
    assert (run + [step])[..|run|] == run;
  }
}
