/** Go's `strings.Split(s, "\n")` and its inverse `strings.Join(pieces, "\n")`,
    as used to cut captured standard output into lines. */
module Lines {

  const Newline: char := '\n'

  /** The number of newline characters in `s`. */
  function NewlineCount(s: string): nat
  {
    if s == [] then 0 else (if s[0] == Newline then 1 else 0) + NewlineCount(s[1..])
  }

  /** No piece of a split contains the separator. */
  predicate NoNewline(s: string)
  {
    Newline !in s
  }

  /** `strings.Split(s, "\n")`: the maximal newline-free pieces of `s`, in
      order. Splitting the empty string yields one empty piece, and a
      trailing newline yields a final empty piece. */
  function Split(s: string): (pieces: seq<string>)
    ensures |pieces| == NewlineCount(s) + 1
    ensures forall i :: 0 <= i < |pieces| ==> NoNewline(pieces[i])
  {
    if s == [] then [[]]
    else
      var rest := Split(s[1..]);
      if s[0] == Newline then [[]] + rest
      else [[s[0]] + rest[0]] + rest[1..]
  }

  /** `strings.Join(pieces, "\n")`. */
  function Join(pieces: seq<string>): string
  {
    if |pieces| == 0 then []
    else if |pieces| == 1 then pieces[0]
    else pieces[0] + [Newline] + Join(pieces[1..])
  }

  /** Joining the pieces with the separator gives back the original text. */
  lemma {:induction false} JoinSplit(s: string)
    ensures Join(Split(s)) == s
  {
    if s != [] {
      var rest := Split(s[1..]);
      JoinSplit(s[1..]);
      if s[0] == Newline {
        assert Split(s) == [[]] + rest;
        assert Join(Split(s)) == [] + [Newline] + Join(rest);
      } else {
        assert Split(s) == [[s[0]] + rest[0]] + rest[1..];
        if |rest| == 1 {
          assert rest == [rest[0]];
        } else {
          assert rest == [rest[0]] + rest[1..];
          assert Join(rest) == rest[0] + [Newline] + Join(rest[1..]);
        }
      }
    }
  }

  /** Splitting distributes over a separator: the pieces of `a + "\n" + b`
      are the pieces of `a` followed by the pieces of `b`. */
  lemma {:induction false} SplitAround(a: string, b: string)
    ensures Split(a + [Newline] + b) == Split(a) + Split(b)
  {
    var s := a + [Newline] + b;
    if a == [] {
      assert s[1..] == b;
    } else {
      assert s[1..] == a[1..] + [Newline] + b;
      SplitAround(a[1..], b);
    }
  }

  /** A newline-free string is a single piece. */
  lemma {:induction false} SplitSingle(p: string)
    requires NoNewline(p)
    ensures Split(p) == [p]
  {
    if p != [] {
      assert p[0] in p;
      assert forall c :: c in p[1..] ==> c in p;
      SplitSingle(p[1..]);
      assert [p[0]] + p[1..] == p;
    }
  }

  /** Splitting undoes joining, as long as no piece contains the separator
      and there is at least one piece. */
  lemma {:induction false} SplitJoin(pieces: seq<string>)
    requires |pieces| > 0
    requires forall i :: 0 <= i < |pieces| ==> NoNewline(pieces[i])
    ensures Split(Join(pieces)) == pieces
  {
    if |pieces| == 1 {
      SplitSingle(pieces[0]);
    } else {
      SplitSingle(pieces[0]);
      SplitJoin(pieces[1..]);
      SplitAround(pieces[0], Join(pieces[1..]));
      assert pieces == [pieces[0]] + pieces[1..];
    }
  }

  /** A trailing newline adds one empty final piece. */
  lemma TrailingNewline(s: string)
    ensures Split(s + [Newline]) == Split(s) + [[]]
  {
    SplitAround(s, []);
    assert s + [Newline] + [] == s + [Newline];
  }
}
