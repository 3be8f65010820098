/** The observable behaviour of a run: the effects it has on the outside
    world, in order, and the way the iterations of a loop follow each other,
    each one running only if no exception escaped the ones before it. */
module Trace {

  /** The lines the program prints. */
  datatype Message =
    | Downloaded(title: string, subject: string, difficulty: string)
    | SaveFailed(title: string)
    | DownloadFailed(title: string)
    | FetchError(url: string)
    | Crashed

  datatype Effect =
    | MakeDirs(path: string)               // os.makedirs(path, exist_ok=True)
    | FetchPage(url: string)               // session.get on a listing URL
    | FetchFile(link: string)              // session.get on an attachment link
    | WriteFile(path: string, link: string) // the body fetched from link, written to path
    | Print(message: Message)

  /** The effects of a stretch of the run, the number of `random.choice`
      calls made since the program started once it is over, and whether an
      exception escaped it. */
  datatype Outcome = Outcome(effects: seq<Effect>, next: nat, raised: bool)

  /** Nothing done yet, `k` draws made so far. */
  function Start(k: nat): Outcome {
    Outcome([], k, false)
  }

  /** Running `a`, then `b`, which starts from the draws `a` made, unless
      `a` raised. */
  function Then(a: Outcome, b: Outcome): Outcome {
    if a.raised then a else Outcome(a.effects + b.effects, b.next, b.raised)
  }

  /** A `for` loop over `xs` whose body is `step`, having done `acc` so far:
      the item at position `i` runs as `step(xs[i], at + i, k)`, where `k`
      counts the draws made before it; the loop ends early when an iteration
      raises. */
  function Loop<T>(step: (T, nat, nat) -> Outcome, xs: seq<T>, at: nat, acc: Outcome): Outcome
    decreases |xs|
  {
    if xs == [] || acc.raised then acc
    else Loop(step, xs[1..], at + 1, Then(acc, step(xs[0], at, acc.next)))
  }

  /** The items of `xs` mapped to sequences and concatenated. */
  function Flat<T, X>(g: T -> seq<X>, xs: seq<T>): seq<X>
    decreases |xs|
  {
    if xs == [] then [] else g(xs[0]) + Flat(g, xs[1..])
  }

  /** The items of `xs` mapped to sequences and concatenated, up to and
      including the first item `stop` holds for. */
  function FlatUntil<T, X>(g: T -> seq<X>, stop: T -> bool, xs: seq<T>): seq<X>
    decreases |xs|
  {
    if xs == [] then [] else g(xs[0]) + (if stop(xs[0]) then [] else FlatUntil(g, stop, xs[1..]))
  }

  /** Every effect of `a` is also an effect of `b`. */
  predicate Within(a: seq<Effect>, b: seq<Effect>) {
    forall x :: x in a ==> x in b
  }

  /** The URL of a listing request. */
  function PageUrl(e: Effect): seq<string> {
    if e.FetchPage? then [e.url] else []
  }

  /** The link of an attachment request. */
  function FileLink(e: Effect): seq<string> {
    if e.FetchFile? then [e.link] else []
  }

  /** The listing URLs requested, in request order. */
  function PageFetches(effects: seq<Effect>): seq<string> {
    Flat(PageUrl, effects)
  }

  /** The attachment links requested, in request order. */
  function FileFetches(effects: seq<Effect>): seq<string> {
    Flat(FileLink, effects)
  }

  // ---------------------------------------------------------------------
  // Lemmas
  // ---------------------------------------------------------------------

  lemma {:induction false} FlatAppend<T, X>(g: T -> seq<X>, a: seq<T>, b: seq<T>)
    ensures Flat(g, a + b) == Flat(g, a) + Flat(g, b)
  {
    if a == [] {
      assert a + b == b;
    } else {
      assert (a + b)[0] == a[0] && (a + b)[1..] == a[1..] + b;
      FlatAppend(g, a[1..], b);
    }
  }

  lemma {:induction false} FlatOne<T, X>(g: T -> seq<X>, x: T)
    ensures Flat(g, [x]) == g(x)
  {
    assert [x][1..] == [];
  }

  /** Items that all map to nothing flatten to nothing. */
  lemma {:induction false} FlatNone<T, X>(g: T -> seq<X>, xs: seq<T>)
    requires forall x :: g(x) == []
    ensures Flat(g, xs) == []
  {
    if xs != [] {
      FlatNone(g, xs[1..]);
    }
  }

  /** A loop only adds to what was done before it; once an exception has
      escaped, it does nothing at all. */
  lemma {:induction false} LoopExtends<T>(step: (T, nat, nat) -> Outcome, xs: seq<T>, at: nat, acc: Outcome)
    ensures acc.effects <= Loop(step, xs, at, acc).effects
    ensures acc.raised ==> Loop(step, xs, at, acc) == acc
  {
    if xs != [] && !acc.raised {
      LoopExtends(step, xs[1..], at + 1, Then(acc, step(xs[0], at, acc.next)));
    }
  }

  /** The next iteration of a loop that has not raised: the loop over the
      items from position `i` on runs the item at `i`, then the rest. */
  lemma {:induction false} LoopNext<T>(step: (T, nat, nat) -> Outcome, xs: seq<T>, i: nat, at: nat, acc: Outcome)
    requires i < |xs| && !acc.raised
    ensures Loop(step, xs[i..], at, acc) == Loop(step, xs[i + 1..], at + 1, Then(acc, step(xs[i], at, acc.next)))
  {
    assert xs[i..][0] == xs[i] && xs[i..][1..] == xs[i + 1..];
  }

  /** Running a loop over `xs + ys` is running it over `xs`, then over `ys`
      from the next position. */
  lemma {:induction false} LoopAppend<T>(step: (T, nat, nat) -> Outcome, xs: seq<T>, ys: seq<T>, at: nat, acc: Outcome)
    ensures Loop(step, xs + ys, at, acc) == Loop(step, ys, at + |xs|, Loop(step, xs, at, acc))
  {
    if xs == [] {
      assert xs + ys == ys;
    } else if !acc.raised {
      assert (xs + ys)[0] == xs[0] && (xs + ys)[1..] == xs[1..] + ys;
      LoopAppend(step, xs[1..], ys, at + 1, Then(acc, step(xs[0], at, acc.next)));
    } else {
      LoopExtends(step, ys, at + |xs|, acc);
    }
  }

  /** When the items before position `i` do not raise, the iteration of the
      item at `i` runs, after the draws they made, and its effects follow
      theirs in the loop's trace. */
  lemma {:induction false} LoopReach<T>(step: (T, nat, nat) -> Outcome, xs: seq<T>, at: nat, acc: Outcome, i: nat)
    requires i < |xs|
    requires !Loop(step, xs[..i], at, acc).raised
    ensures var before := Loop(step, xs[..i], at, acc);
            before.effects + step(xs[i], at + i, before.next).effects <= Loop(step, xs, at, acc).effects
  {
    var before := Loop(step, xs[..i], at, acc);
    var after := Then(before, step(xs[i], at + i, before.next));
    assert xs[..i] + xs[i..] == xs;
    LoopAppend(step, xs[..i], xs[i..], at, acc);
    assert xs[i..][0] == xs[i] && xs[i..][1..] == xs[i + 1..];
    assert Loop(step, xs[i..], at + i, before) == Loop(step, xs[i + 1..], at + i + 1, after);
    LoopExtends(step, xs[i + 1..], at + i + 1, after);
  }

  /** Whatever a reached iteration does is in the loop's trace. */
  lemma {:induction false} LoopReachAll<T>(step: (T, nat, nat) -> Outcome, xs: seq<T>, at: nat, acc: Outcome, i: nat)
    requires i < |xs|
    requires !Loop(step, xs[..i], at, acc).raised
    ensures Within(step(xs[i], at + i, Loop(step, xs[..i], at, acc).next).effects, Loop(step, xs, at, acc).effects)
  {
    var before := Loop(step, xs[..i], at, acc);
    var mine := step(xs[i], at + i, before.next).effects;
    LoopReach(step, xs, at, acc, i);
    forall x | x in mine ensures x in Loop(step, xs, at, acc).effects {
      InPrefix(x, before.effects, mine, Loop(step, xs, at, acc).effects);
    }
  }

  /** Every effect a loop adds belongs to one iteration: the effect at
      position `j` lies in the slice `[off, off + |s|)` of the trace that is
      the whole trace `s` of the item at position `i`, run with `k` draws
      made before it, those of the items before it. */
  lemma {:induction false} LoopLocate<T>(step: (T, nat, nat) -> Outcome, xs: seq<T>, at: nat, acc: Outcome, j: nat)
    returns (i: nat, k: nat, off: nat)
    requires |acc.effects| <= j < |Loop(step, xs, at, acc).effects|
    ensures i < |xs| && k == Loop(step, xs[..i], at, acc).next
    ensures var e := Loop(step, xs, at, acc).effects;
            var s := step(xs[i], at + i, k).effects;
            off <= j < off + |s| <= |e| && e[off..off + |s|] == s
  {
    var first := step(xs[0], at, acc.next);
    var acc' := Then(acc, first);
    var e := Loop(step, xs, at, acc).effects;
    LoopExtends(step, xs[1..], at + 1, acc');
    assert acc'.effects == acc.effects + first.effects;
    if j < |acc'.effects| {
      i, k, off := 0, acc.next, |acc.effects|;
      assert e[off..off + |first.effects|] == acc'.effects[off..];
    } else {
      var i';
      i', k, off := LoopLocate(step, xs[1..], at + 1, acc', j);
      i := i' + 1;
      assert xs[i] == xs[1..][i'];
      assert xs[..i][0] == xs[0] && xs[..i][1..] == xs[1..][..i'];
    }
  }

  /** A loop raises exactly when it reaches an item whose iteration raises;
      when that depends on the item alone, exactly when some item is bad. */
  lemma {:induction false} LoopRaises<T>(step: (T, nat, nat) -> Outcome, bad: T -> bool, xs: seq<T>, at: nat, acc: Outcome)
    requires forall x, p: nat, k: nat :: step(x, p, k).raised == bad(x)
    ensures Loop(step, xs, at, acc).raised <==> acc.raised || exists i :: 0 <= i < |xs| && bad(xs[i])
  {
    if xs != [] && !acc.raised {
      LoopRaises(step, bad, xs[1..], at + 1, Then(acc, step(xs[0], at, acc.next)));
      if exists i :: 0 <= i < |xs[1..]| && bad(xs[1..][i]) {
        var i :| 0 <= i < |xs[1..]| && bad(xs[1..][i]);
        assert bad(xs[i + 1]);
      }
      if exists i :: 0 <= i < |xs| && bad(xs[i]) {
        var i :| 0 <= i < |xs| && bad(xs[i]);
        if i > 0 {
          assert bad(xs[1..][i - 1]);
        }
      }
    }
  }

  /** What a loop adds to a trace, seen through `h` (the URLs requested,
      say), is a prefix of the items' own views `g` concatenated in item
      order, when each iteration shows a prefix of its item's view, all of it
      unless it raised; and it is all of it when the loop does not raise. */
  lemma {:induction false} LoopProject<T, X>(step: (T, nat, nat) -> Outcome, h: Effect -> seq<X>, g: T -> seq<X>,
                                            xs: seq<T>, at: nat, acc: Outcome)
    requires !acc.raised
    requires forall x, p: nat, k: nat :: Flat(h, step(x, p, k).effects) <= g(x)
    requires forall x, p: nat, k: nat :: !step(x, p, k).raised ==> Flat(h, step(x, p, k).effects) == g(x)
    ensures var r := Loop(step, xs, at, acc);
            Flat(h, r.effects) <= Flat(h, acc.effects) + Flat(g, xs) &&
            (!r.raised ==> Flat(h, r.effects) == Flat(h, acc.effects) + Flat(g, xs))
  {
    if xs != [] {
      var first := step(xs[0], at, acc.next);
      var acc' := Then(acc, first);
      FlatAppend(h, acc.effects, first.effects);
      var before, mine, others := Flat(h, acc.effects), Flat(h, first.effects), Flat(g, xs[1..]);
      assert Flat(g, xs) == g(xs[0]) + others;
      if first.raised {
        LoopExtends(step, xs[1..], at + 1, acc');
        PrefixAppend(before, mine, g(xs[0]) + others);
      } else {
        LoopProject(step, h, g, xs[1..], at + 1, acc');
        assert before + mine + others == before + Flat(g, xs);
      }
    }
  }

  /** What a loop adds to a trace, seen through `h`, is exactly the items'
      own views `g` concatenated in item order up to and including the first
      item whose iteration raises, when each iteration shows all of its
      item's view and raises according to its item alone. */
  lemma {:induction false} LoopProjectUntil<T, X>(step: (T, nat, nat) -> Outcome, h: Effect -> seq<X>, g: T -> seq<X>,
                                                 stop: T -> bool, xs: seq<T>, at: nat, acc: Outcome)
    requires !acc.raised
    requires forall x, p: nat, k: nat :: Flat(h, step(x, p, k).effects) == g(x) && step(x, p, k).raised == stop(x)
    ensures Flat(h, Loop(step, xs, at, acc).effects) == Flat(h, acc.effects) + FlatUntil(g, stop, xs)
  {
    if xs != [] {
      var first := step(xs[0], at, acc.next);
      var acc' := Then(acc, first);
      FlatAppend(h, acc.effects, first.effects);
      if first.raised {
        LoopExtends(step, xs[1..], at + 1, acc');
      } else {
        LoopProjectUntil(step, h, g, stop, xs[1..], at + 1, acc');
        AppendAssoc(Flat(h, acc.effects), g(xs[0]), FlatUntil(g, stop, xs[1..]));
      }
    }
  }

  /** When no item stops, the cut-off view is the whole view, taken through
      any `g2` that agrees with `g` on the items. */
  lemma {:induction false} FlatUntilNone<T, X>(g: T -> seq<X>, g2: T -> seq<X>, stop: T -> bool, xs: seq<T>)
    requires forall i :: 0 <= i < |xs| ==> !stop(xs[i]) && g(xs[i]) == g2(xs[i])
    ensures FlatUntil(g, stop, xs) == Flat(g2, xs)
  {
    if xs != [] {
      assert !stop(xs[0]) && g(xs[0]) == g2(xs[0]);
      forall i | 0 <= i < |xs[1..]| ensures !stop(xs[1..][i]) && g(xs[1..][i]) == g2(xs[1..][i]) {
        assert xs[1..][i] == xs[i + 1];
      }
      FlatUntilNone(g, g2, stop, xs[1..]);
    }
  }

  /** When the first item that stops is at position `b`, the cut-off view is
      the view of the items up to and including it. */
  lemma {:induction false} FlatUntilCut<T, X>(g: T -> seq<X>, stop: T -> bool, xs: seq<T>, b: nat)
    requires b < |xs| && stop(xs[b])
    requires forall i :: 0 <= i < b ==> !stop(xs[i])
    ensures FlatUntil(g, stop, xs) == Flat(g, xs[..b + 1])
  {
    var ys := xs[..b + 1];
    assert ys[0] == xs[0] && ys[1..] == xs[1..][..b];
    if b == 0 {
      assert ys[1..] == [];
    } else {
      assert !stop(xs[0]);
      forall i | 0 <= i < b - 1 ensures !stop(xs[1..][i]) {
        assert xs[1..][i] == xs[i + 1];
      }
      FlatUntilCut(g, stop, xs[1..], b - 1);
    }
  }

  lemma {:induction false} InWithin(x: Effect, a: seq<Effect>, b: seq<Effect>)
    requires x in a && Within(a, b)
    ensures x in b
  {
  }

  lemma {:induction false} WithinTrans(a: seq<Effect>, b: seq<Effect>, c: seq<Effect>)
    requires Within(a, b) && Within(b, c)
    ensures Within(a, c)
  {
  }

  /** Appending is associative. */
  lemma {:induction false} AppendAssoc<X>(a: seq<X>, b: seq<X>, c: seq<X>)
    ensures (a + b) + c == a + (b + c)
  {
  }

  /** What a piece of a prefix holds, the whole sequence holds. */
  lemma {:induction false} InPrefix<X>(x: X, a: seq<X>, b: seq<X>, c: seq<X>)
    requires x in b && a + b <= c
    ensures x in c
  {
    var t :| 0 <= t < |b| && b[t] == x;
    assert c[|a| + t] == (a + b)[|a| + t];
  }

  /** Extending both sides of a prefix on the left keeps it a prefix. */
  lemma {:induction false} PrefixAppend<X>(a: seq<X>, b: seq<X>, c: seq<X>)
    requires b <= c
    ensures a + b <= a + c
  {
    assert (a + c)[..|a + b|] == a + c[..|b|];
  }

  /** A loop that does not raise makes as many draws as its items' views
      `g` hold, when each iteration that does not raise draws once per
      element of its item's view. */
  lemma {:induction false} LoopDraws<T, X>(step: (T, nat, nat) -> Outcome, g: T -> seq<X>, xs: seq<T>, at: nat, acc: Outcome)
    requires forall x, p: nat, k: nat :: !step(x, p, k).raised ==> step(x, p, k).next == k + |g(x)|
    ensures !Loop(step, xs, at, acc).raised ==> Loop(step, xs, at, acc).next == acc.next + |Flat(g, xs)|
  {
    if xs != [] && !acc.raised {
      var first := step(xs[0], at, acc.next);
      LoopDraws(step, g, xs[1..], at + 1, Then(acc, first));
      if !Loop(step, xs, at, acc).raised {
        LoopExtends(step, xs[1..], at + 1, Then(acc, first));
      }
    }
  }
}
