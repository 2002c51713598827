/**
  The text operations the composition functions are built from: Python's
  `str.join`, and the parenthesis accounting used to state that composed
  conditions and labels are well nested.
*/
module SqlText {

  /** `sep.join(parts)`: the parts in order, with `sep` between neighbours. */
  function Join(sep: string, parts: seq<string>): string
    decreases |parts|
  {
    if |parts| == 0 then ""
    else if |parts| == 1 then parts[0]
    else parts[0] + sep + Join(sep, parts[1..])
  }

  /** Joining a concatenation is joining each half and putting `sep` between them. */
  lemma {:induction false} JoinSplit(sep: string, a: seq<string>, b: seq<string>)
    requires |a| > 0 && |b| > 0
    ensures Join(sep, a + b) == Join(sep, a) + sep + Join(sep, b)
    decreases |a|
  {
    if |a| == 1 {
      assert (a + b)[1..] == b;
    } else {
      assert (a + b)[1..] == a[1..] + b;
      JoinSplit(sep, a[1..], b);
    }
  }

  /** The number of occurrences of `ch` in `s`. */
  function Count(ch: char, s: string): nat
    decreases |s|
  {
    if |s| == 0 then 0
    else (if s[0] == ch then 1 else 0) + Count(ch, s[1..])
  }

  lemma {:induction false} CountConcat(ch: char, s: string, t: string)
    ensures Count(ch, s + t) == Count(ch, s) + Count(ch, t)
    decreases |s|
  {
    if |s| == 0 {
      assert s + t == t;
    } else {
      assert (s + t)[1..] == s[1..] + t;
      CountConcat(ch, s[1..], t);
    }
  }

  lemma {:induction false} CountAbsent(ch: char, s: string)
    requires ch !in s
    ensures Count(ch, s) == 0
    decreases |s|
  {
    if |s| > 0 {
      assert s == [s[0]] + s[1..];
      CountAbsent(ch, s[1..]);
    }
  }

  /** The total number of occurrences of `ch` across `parts`. */
  function SumCount(ch: char, parts: seq<string>): nat
    decreases |parts|
  {
    if |parts| == 0 then 0 else Count(ch, parts[0]) + SumCount(ch, parts[1..])
  }

  /** Opening minus closing parentheses. */
  function Depth(s: string): int {
    Count('(', s) - Count(')', s)
  }

  lemma DepthConcat(s: string, t: string)
    ensures Depth(s + t) == Depth(s) + Depth(t)
  {
    CountConcat('(', s, t);
    CountConcat(')', s, t);
  }

  /** Every prefix opens at least as many parentheses as it closes, and the whole closes them all. */
  predicate Balanced(s: string) {
    Depth(s) == 0 && forall k :: 0 <= k <= |s| ==> Depth(s[..k]) >= 0
  }

  /** Text without parentheses is balanced. */
  lemma NoParensBalanced(s: string)
    requires '(' !in s && ')' !in s
    ensures Balanced(s)
  {
    CountAbsent('(', s);
    CountAbsent(')', s);
    forall k | 0 <= k <= |s| ensures Depth(s[..k]) >= 0 {
      assert '(' !in s[..k] && ')' !in s[..k] by {
        assert forall c :: c in s[..k] ==> c in s;
      }
      CountAbsent('(', s[..k]);
      CountAbsent(')', s[..k]);
    }
  }

  lemma BalancedConcat(s: string, t: string)
    requires Balanced(s) && Balanced(t)
    ensures Balanced(s + t)
  {
    DepthConcat(s, t);
    forall k | 0 <= k <= |s + t| ensures Depth((s + t)[..k]) >= 0 {
      if k <= |s| {
        assert (s + t)[..k] == s[..k];
      } else {
        assert (s + t)[..k] == s + t[..k - |s|];
        DepthConcat(s, t[..k - |s|]);
      }
    }
  }

  /** Wrapping balanced text in one pair of parentheses keeps it balanced. */
  lemma BalancedWrap(s: string)
    requires Balanced(s)
    ensures Balanced("(" + s + ")")
  {
    var w := "(" + s + ")";
    assert Depth("(") == 1;
    assert Depth(")") == -1;
    DepthConcat("(", s);
    DepthConcat("(" + s, ")");
    forall k | 0 <= k <= |w| ensures Depth(w[..k]) >= 0 {
      if k == 0 {
        assert w[..k] == "";
      } else if k <= |s| + 1 {
        assert w[..k] == "(" + s[..k - 1];
        DepthConcat("(", s[..k - 1]);
      } else {
        assert w[..k] == w;
      }
    }
  }

  /** Joining with a separator that lacks `ch` adds no occurrence of `ch`. */
  lemma {:induction false} CountJoin(ch: char, sep: string, parts: seq<string>)
    requires ch !in sep
    ensures Count(ch, Join(sep, parts)) == SumCount(ch, parts)
    decreases |parts|
  {
    if |parts| == 0 {
    } else if |parts| == 1 {
    } else {
      CountAbsent(ch, sep);
      CountConcat(ch, parts[0], sep);
      CountConcat(ch, parts[0] + sep, Join(sep, parts[1..]));
      CountJoin(ch, sep, parts[1..]);
    }
  }

  /** Balanced parts joined by a balanced separator give balanced text. */
  lemma {:induction false} JoinBalanced(sep: string, parts: seq<string>)
    requires Balanced(sep)
    requires forall i :: 0 <= i < |parts| ==> Balanced(parts[i])
    ensures Balanced(Join(sep, parts))
    decreases |parts|
  {
    if |parts| == 0 {
      NoParensBalanced("");
    } else if |parts| > 1 {
      JoinBalanced(sep, parts[1..]);
      BalancedConcat(parts[0], sep);
      BalancedConcat(parts[0] + sep, Join(sep, parts[1..]));
    }
  }
}
