/** Parsing a stream by cutting one frame after another off its front, for any rule that says where a
    frame ends. The rule may carry a memory from frame to frame. */
module FrameParser {
  import opened Bytes

  datatype Cut<M, O> = More | Bad | Got(out: O, mem: M, len: nat)

  datatype Parsed<M, O, B> = Parsed(out: seq<O>, mem: M, rest: seq<B>, crashed: bool)

  function Parse<M, O, B>(cut: (M, seq<B>) -> Cut<M, O>, mem: M, s: seq<B>): Parsed<M, O, B>
    decreases |s|
  {
    match cut(mem, s)
    case More => Parsed([], mem, s, false)
    case Bad => Parsed([], mem, s, true)
    case Got(o, m, n) =>
      if 0 < n <= |s| then
        var p := Parse(cut, m, s[n..]);
        p.(out := [o] + p.out)
      else
        Parsed([], mem, s, true)
  }

  /** What a parse becomes when more bytes arrive. */
  function Continue<M, O, B>(cut: (M, seq<B>) -> Cut<M, O>, p: Parsed<M, O, B>, more: seq<B>): Parsed<M, O, B> {
    var q := Parse(cut, p.mem, p.rest + more);
    q.(out := p.out + q.out)
  }

  /** A frame is recognised without looking past its end. */
  ghost predicate Prompt<M(!new), O, B(!new)>(cut: (M, seq<B>) -> Cut<M, O>) {
    forall m, a, s {:trigger cut(m, a), cut(m, s)} :: cut(m, a).Got? && a <= s ==> cut(m, s) == cut(m, a)
  }

  /** Parsing is incremental: a stream may be cut anywhere and parsed in two goes. */
  lemma {:induction false} ParseSplits<M(!new), O, B(!new)>(cut: (M, seq<B>) -> Cut<M, O>, mem: M, a: seq<B>, b: seq<B>)
    requires Prompt(cut) && !Parse(cut, mem, a).crashed
    ensures Parse(cut, mem, a + b) == Continue(cut, Parse(cut, mem, a), b)
    decreases |a|
  {
    if cut(mem, a).Got? {
      assert cut(mem, a + b) == cut(mem, a);
      var Got(o, m, n) := cut(mem, a);
      var p := Parse(cut, m, a[n..]);
      var q := Parse(cut, p.mem, p.rest + b);
      assert (a + b)[n..] == a[n..] + b;
      assert Parse(cut, m, a[n..] + b) == q.(out := p.out + q.out) by {
        ParseSplits(cut, m, a[n..], b);
      }
      Regroup([o], p.out, q.out);
    } else {
      var q := Parse(cut, mem, a + b);
      assert [] + q.out == q.out;
    }
  }

  lemma ContinueTwice<M(!new), O, B(!new)>(cut: (M, seq<B>) -> Cut<M, O>, p: Parsed<M, O, B>, a: seq<B>, b: seq<B>)
    requires Prompt(cut) && !Continue(cut, p, a).crashed
    ensures Continue(cut, Continue(cut, p, a), b) == Continue(cut, p, a + b)
  {
    var x := Parse(cut, p.mem, p.rest + a);
    var y := Parse(cut, x.mem, x.rest + b);
    assert p.rest + (a + b) == (p.rest + a) + b;
    ParseSplits(cut, p.mem, p.rest + a, b);
    Regroup(p.out, x.out, y.out);
  }
}
