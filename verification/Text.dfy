/** The string functions the parser and printer call, for text split into lines by '\n'. */
module Text {
  import opened Wrappers

  predicate OneLine(s: string) {
    '\n' !in s
  }

  ghost predicate AllOneLine(ls: seq<string>) {
    forall i :: 0 <= i < |ls| ==> OneLine(ls[i])
  }

  /** strings.Split(s, "\n") */
  function Split(s: string): (ls: seq<string>)
    ensures |ls| >= 1
  {
    if s == "" then [""]
    else
      var rest := Split(s[1..]);
      if s[0] == '\n' then [""] + rest else [[s[0]] + rest[0]] + rest[1..]
  }

  /** strings.Join(ls, "\n") */
  function Join(ls: seq<string>): string {
    if ls == [] then "" else if |ls| == 1 then ls[0] else ls[0] + "\n" + Join(ls[1..])
  }

  /** bytes.TrimRight(b, "\n") */
  function TrimRight(s: string): string {
    if s != "" && s[|s| - 1] == '\n' then TrimRight(s[..|s| - 1]) else s
  }

  function Newlines(k: nat): string {
    Repeat('\n', k)
  }

  // ----- Split and Join are inverses -----

  lemma {:induction false} JoinSplit(s: string)
    ensures Join(Split(s)) == s && AllOneLine(Split(s))
  {
    if s != "" {
      var rest := Split(s[1..]);
      JoinSplit(s[1..]);
      var ls := Split(s);
      if s[0] == '\n' {
        assert ls[1..] == rest;
        assert Join(ls) == "" + "\n" + Join(rest);
      } else {
        assert ls[1..] == rest[1..];
        assert forall i :: 1 <= i < |ls| ==> ls[i] == rest[i];
        if |rest| > 1 {
          assert Join(rest) == rest[0] + "\n" + Join(rest[1..]);
        }
        assert Join(ls) == [s[0]] + Join(rest);
      }
    }
  }

  lemma {:induction false} SplitOneLine(s: string)
    requires OneLine(s)
    ensures Split(s) == [s]
  {
    if s != "" {
      assert s[0] in s && OneLine(s[1..]);
      SplitOneLine(s[1..]);
      assert [s[0]] + s[1..] == s;
    }
  }

  lemma {:induction false} SplitLine(l: string, s: string)
    requires OneLine(l)
    ensures Split(l + "\n" + s) == [l] + Split(s)
  {
    var t := l + "\n" + s;
    if l == "" {
      assert t[1..] == s;
    } else {
      assert t[1..] == l[1..] + "\n" + s;
      assert l[0] in l && OneLine(l[1..]);
      SplitLine(l[1..], s);
      assert [l[0]] + l[1..] == l;
      assert ([l[1..]] + Split(s))[1..] == Split(s);
    }
  }

  lemma {:induction false} SplitJoin(ls: seq<string>)
    requires |ls| >= 1 && AllOneLine(ls)
    ensures Split(Join(ls)) == ls
  {
    if |ls| == 1 {
      SplitOneLine(ls[0]);
    } else {
      SplitLine(ls[0], Join(ls[1..]));
      SplitJoin(ls[1..]);
    }
  }

  // ----- Trimming -----

  lemma {:induction false} TrimRightIs(s: string) returns (k: nat)
    ensures s == TrimRight(s) + Newlines(k)
  {
    if s != "" && s[|s| - 1] == '\n' {
      k := TrimRightIs(s[..|s| - 1]);
      k := k + 1;
    } else {
      k := 0;
    }
  }

  lemma {:induction false} TrimRightUndoes(s: string, k: nat)
    requires s != "" && s[|s| - 1] != '\n'
    ensures TrimRight(s + Newlines(k)) == s
  {
    if k > 0 {
      assert (s + Newlines(k))[..|s| + k - 1] == s + Newlines(k - 1);
      TrimRightUndoes(s, k - 1);
    } else {
      assert s + Newlines(0) == s;
    }
  }

  // ----- What Join holds -----

  lemma {:induction false} JoinHas(ls: seq<string>, c: char)
    requires c != '\n'
    ensures c in Join(ls) <==> exists i :: 0 <= i < |ls| && c in ls[i]
  {
    if |ls| > 1 {
      JoinHas(ls[1..], c);
      if exists i :: 0 <= i < |ls| && c in ls[i] {
        var i :| 0 <= i < |ls| && c in ls[i];
        assert i > 0 ==> c in ls[1..][i - 1];
      }
    }
  }

  lemma {:induction false} JoinLast(ls: seq<string>)
    requires |ls| >= 1 && ls[|ls| - 1] != ""
    ensures Join(ls) != "" && Join(ls)[|Join(ls)| - 1] == ls[|ls| - 1][|ls[|ls| - 1]| - 1]
  {
    if |ls| > 1 {
      JoinLast(ls[1..]);
    }
  }

  /** The length of the lines with one newline each. */
  function Size(ls: seq<string>): nat {
    if ls == [] then 0 else |ls[0]| + 1 + Size(ls[1..])
  }

  lemma {:induction false} JoinSize(ls: seq<string>)
    requires ls != []
    ensures |Join(ls)| + 1 == Size(ls)
  {
    if |ls| > 1 {
      JoinSize(ls[1..]);
    }
  }

  lemma {:induction false} SizeAppend(a: seq<string>, b: seq<string>)
    ensures Size(a + b) == Size(a) + Size(b)
  {
    if a != [] {
      assert (a + b)[1..] == a[1..] + b;
      SizeAppend(a[1..], b);
    } else {
      assert a + b == b;
    }
  }

  /** Every line ended by a newline. */
  function Unlines(ls: seq<string>): string {
    if ls == [] then "" else Unlines(ls[..|ls| - 1]) + (ls[|ls| - 1] + "\n")
  }

  lemma UnlinesSnoc(ls: seq<string>, l: string)
    ensures Unlines(ls + [l]) == Unlines(ls) + (l + "\n")
  {
    assert (ls + [l])[..|ls|] == ls;
  }

  lemma {:induction false} JoinSnoc(ls: seq<string>, l: string)
    requires ls != []
    ensures Join(ls + [l]) == Join(ls) + "\n" + l
  {
    assert (ls + [l])[1..] == ls[1..] + [l];
    if |ls| > 1 {
      JoinSnoc(ls[1..], l);
    } else {
      assert Join([l]) == l;
    }
  }

  lemma {:induction false} UnlinesJoin(ls: seq<string>)
    requires ls != []
    ensures Unlines(ls) == Join(ls) + "\n"
  {
    var front, last := ls[..|ls| - 1], ls[|ls| - 1];
    if front != [] {
      UnlinesJoin(front);
      JoinSnoc(front, last);
      assert front + [last] == ls;
    } else {
      assert Unlines(front) == "";
    }
  }
}
