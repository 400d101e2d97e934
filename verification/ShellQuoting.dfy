/** Lines put together from parts the shell reads apart, and the single quotes the command builder
    puts around a value. */
module ShellQuoting {
  import opened Text
  import opened ShellWords

  // ------------------------------------------------------ joining lines

  /** The line `p` followed by a blank and more. */
  predicate Joins(p: string, q: string) {
    StateAt(p, |p|).Plain? && q != "" && IsBlank(q[0])
  }

  lemma {:induction false} StateInPrefix(p: string, q: string, i: nat)
    requires StateAt(p, |p|).Plain? && i <= |p|
    ensures StateAt(p + q, i) == StateAt(p, i)
    decreases i
  {
    hide EscapesInDouble;
    if i > 0 {
      StateInPrefix(p, q, i - 1);
      assert (p + q)[i - 1] == p[i - 1];
      assert i < |p| ==> (p + q)[i] == p[i];
    }
  }

  lemma {:induction false} StateInSuffix(p: string, q: string, j: nat)
    requires StateAt(p, |p|).Plain? && j <= |q|
    ensures StateAt(p + q, |p| + j) == StateAt(q, j)
    decreases j
  {
    hide EscapesInDouble;
    if j == 0 {
      StateInPrefix(p, q, |p|);
    } else {
      StateInSuffix(p, q, j - 1);
      assert (p + q)[|p| + j - 1] == q[j - 1];
      assert j < |q| ==> (p + q)[|p| + j] == q[j];
    }
  }

  lemma MarkInPrefix(p: string, q: string, i: nat)
    requires StateAt(p, |p|).Plain? && i < |p|
    ensures MarkAt(p + q, i) == MarkAt(p, i)
  {
    hide IsSyntax, IsGlob, EscapesInDouble;
    StateInPrefix(p, q, i);
    if i > 0 {
      StateInPrefix(p, q, i - 1);
    }
    LastInDouble(p, i);
    hide StateAt;
  }

  /** A backslash that could escape something after `p` would leave its last quote open. */
  lemma LastInDouble(p: string, i: nat)
    requires StateAt(p, |p|).Plain? && i < |p|
    ensures StateAt(p, i).Double? && p[i] == '\\' ==> i + 1 < |p|
  {
  }

  lemma MarkInSuffix(p: string, q: string, j: nat)
    requires Joins(p, q) && j < |q|
    ensures MarkAt(p + q, |p| + j) == MarkAt(q, j)
  {
    hide IsSyntax, IsGlob, EscapesInDouble;
    StateInSuffix(p, q, j);
    if j > 0 {
      StateInSuffix(p, q, j - 1);
    }
    hide StateAt;
  }

  lemma {:induction false} UnquoteInPrefix(p: string, q: string, i: nat, e: nat)
    requires StateAt(p, |p|).Plain? && i <= e <= |p|
    ensures Unquote(p + q, i, e) == Unquote(p, i, e)
    decreases e
  {
    hide MarkAt, StateAt;
    if i < e {
      UnquoteInPrefix(p, q, i, e - 1);
      MarkInPrefix(p, q, e - 1);
    }
  }

  lemma {:induction false} UnquoteInSuffix(p: string, q: string, i: nat, e: nat)
    requires Joins(p, q) && i <= e <= |q|
    ensures Unquote(p + q, |p| + i, |p| + e) == Unquote(q, i, e)
    decreases e
  {
    hide MarkAt, StateAt;
    if i < e {
      UnquoteInSuffix(p, q, i, e - 1);
      MarkInSuffix(p, q, e - 1);
    }
  }

  lemma FieldEndInPrefix(p: string, q: string, i: nat)
    requires Joins(p, q) && i <= |p|
    ensures FieldEnd(p + q, i) == FieldEnd(p, i)
  {
    hide MarkAt, StateAt;
    var e := FieldEnd(p, i);
    forall k | i <= k < e ensures MarkAt(p + q, k) != Blank {
      MarkInPrefix(p, q, k);
    }
    if e < |p| {
      MarkInPrefix(p, q, e);
    } else {
      MarkInSuffix(p, q, 0);
      BlankFirst(q);
    }
    FieldEndIs(p + q, i, e);
  }

  lemma BlankFirst(q: string)
    requires q != "" && IsBlank(q[0])
    ensures MarkAt(q, 0) == Blank
  {
  }

  lemma FieldEndInSuffix(p: string, q: string, j: nat)
    requires Joins(p, q) && j <= |q|
    ensures FieldEnd(p + q, |p| + j) == |p| + FieldEnd(q, j)
  {
    hide MarkAt, StateAt;
    var e := FieldEnd(q, j);
    forall k | |p| + j <= k < |p| + e ensures MarkAt(p + q, k) != Blank {
      MarkInSuffix(p, q, k - |p|);
    }
    if e < |q| {
      MarkInSuffix(p, q, e);
    }
    FieldEndIs(p + q, |p| + j, |p| + e);
  }

  lemma {:induction false} FieldsInSuffix(p: string, q: string, j: nat)
    requires Joins(p, q) && j <= |q|
    ensures Fields(p + q, |p| + j) == Fields(q, j)
    decreases |q| - j
  {
    hide MarkAt, StateAt, FieldEnd, Unquote, Joins;
    if j < |q| {
      MarkInSuffix(p, q, j);
      if MarkAt(q, j) == Blank {
        FieldsInSuffix(p, q, j + 1);
      } else {
        var e := FieldEnd(q, j);
        Moves(q, j);
        FieldEndInSuffix(p, q, j);
        UnquoteInSuffix(p, q, j, e);
        FieldsInSuffix(p, q, e);
      }
    }
  }

  lemma Moves(q: string, j: nat)
    requires j < |q| && MarkAt(q, j) != Blank
    ensures FieldEnd(q, j) > j
  {
  }

  lemma {:induction false} FieldsInPrefix(p: string, q: string, i: nat)
    requires Joins(p, q) && i <= |p|
    ensures Fields(p + q, i) == Fields(p, i) + Fields(q, 0)
    decreases |p| - i
  {
    hide MarkAt, StateAt, FieldEnd, Unquote, Joins;
    if i == |p| {
      FieldsInSuffix(p, q, 0);
    } else {
      IsOpenEnded(p, q);
      MarkInPrefix(p, q, i);
      if MarkAt(p, i) == Blank {
        FieldsInPrefix(p, q, i + 1);
      } else {
        var e := FieldEnd(p, i);
        Moves(p, i);
        FieldEndInPrefix(p, q, i);
        UnquoteInPrefix(p, q, i, e);
        FieldsInPrefix(p, q, e);
      }
    }
  }

  lemma IsOpenEnded(p: string, q: string)
    requires Joins(p, q)
    ensures StateAt(p, |p|).Plain?
  {
  }

  /** Lines joined at a blank are literal when both are, and their words follow each other. */
  lemma WordsJoin(p: string, q: string)
    requires Words(p).Some? && Words(q).Some? && q != "" && IsBlank(q[0])
    ensures Words(p + q) == Some(Words(p).value + Words(q).value)
  {
    hide MarkAt, Fields, StateAt;
    StateInSuffix(p, q, |q|);
    forall i | 0 <= i < |p + q| ensures MarkAt(p + q, i) != Active {
      if i < |p| {
        MarkInPrefix(p, q, i);
      } else {
        MarkInSuffix(p, q, i - |p|);
      }
    }
    FieldsInPrefix(p, q, 0);
  }
}
