/** Runs of an event machine. A machine is a step function that returns None when the event is
    not enabled; an event names the task that moves and whatever its environment decides
    (a database error, a clock reading, which entries are evicted). A run is a sequence of
    enabled events, so every interleaving of the tasks is one of them. */
module Runs {

  datatype Option<+T> = None | Some(value: T)

  function Run<S, E>(step: (S, E) -> Option<S>, s: S, es: seq<E>): Option<S>
  {
    if es == [] then Some(s)
    else match step(s, es[0])
      case None => None
      case Some(next) => Run(step, next, es[1..])
  }

  ghost predicate Inductive<S(!new), E(!new)>(step: (S, E) -> Option<S>, inv: S -> bool)
  {
    forall s, e :: inv(s) && step(s, e).Some? ==> inv(step(s, e).value)
  }

  /** An inductive invariant holds at the end of every run that starts inside it. */
  lemma {:induction false} RunKeeps<S(!new), E(!new)>(step: (S, E) -> Option<S>, inv: S -> bool, s: S, es: seq<E>)
    requires Inductive(step, inv)
    requires inv(s) && Run(step, s, es).Some?
    ensures inv(Run(step, s, es).value)
  {
    if es == [] {
    } else {
      assert inv(step(s, es[0]).value);
      RunKeeps(step, inv, step(s, es[0]).value, es[1..]);
    }
  }

  /** A run can be cut anywhere: both parts are runs. */
  lemma {:induction false} RunSplits<S, E>(step: (S, E) -> Option<S>, s: S, es: seq<E>, fs: seq<E>)
    ensures Run(step, s, es + fs) ==
            match Run(step, s, es) case None => None case Some(m) => Run(step, m, fs)
  {
    if es == [] {
      assert es + fs == fs;
    } else {
      assert (es + fs)[0] == es[0] && (es + fs)[1..] == es[1..] + fs;
      if step(s, es[0]).Some? {
        RunSplits(step, step(s, es[0]).value, es[1..], fs);
      }
    }
  }

  lemma RunsJoin<S, E>(step: (S, E) -> Option<S>, a: S, es: seq<E>, b: S, fs: seq<E>, c: S)
    requires Run(step, a, es) == Some(b) && Run(step, b, fs) == Some(c)
    ensures Run(step, a, es + fs) == Some(c)
  {
    RunSplits(step, a, es, fs);
  }

  lemma RunOfOne<S, E>(step: (S, E) -> Option<S>, a: S, e: E, b: S)
    requires step(a, e) == Some(b)
    ensures Run(step, a, [e]) == Some(b)
  {
    assert [e][1..] == [] && Run(step, b, []) == Some(b);
  }

  lemma RunOfTwo<S, E>(step: (S, E) -> Option<S>, a: S, e: E, b: S, f: E, c: S)
    requires step(a, e) == Some(b) && step(b, f) == Some(c)
    ensures Run(step, a, [e, f]) == Some(c)
  {
    RunOfOne(step, a, e, b);
    RunOfOne(step, b, f, c);
    RunsJoin(step, a, [e], b, [f], c);
    assert [e] + [f] == [e, f];
  }

  lemma RunOfFour<S, E>(step: (S, E) -> Option<S>, s0: S, e: seq<E>, s1: S, s2: S, s3: S, s4: S)
    requires |e| == 4
    requires step(s0, e[0]) == Some(s1) && step(s1, e[1]) == Some(s2) && step(s2, e[2]) == Some(s3) &&
             step(s3, e[3]) == Some(s4)
    ensures Run(step, s0, e) == Some(s4)
  {
    RunOfTwo(step, s0, e[0], s1, e[1], s2);
    RunOfTwo(step, s2, e[2], s3, e[3], s4);
    RunsJoin(step, s0, [e[0], e[1]], s2, [e[2], e[3]], s4);
    assert [e[0], e[1]] + [e[2], e[3]] == e;
  }

  /** Sequence facts kept out of the larger proofs. */
  lemma Regroup<T>(a: seq<T>, b: seq<T>, c: seq<T>)
    ensures a + [] == a && (a + b) + c == a + (b + c)
  {
  }

  lemma Tail<T>(a: seq<T>, b: seq<T>)
    ensures (a + b)[|a|..] == b
  {
  }
}
