/** Counting the `?` placeholders of the SQL text the handlers assemble, so
    that a clause can be checked against its parameter list. */
module SqlText {
  /** The number of `?` placeholders in a SQL fragment. */
  function Placeholders(s: string): nat
  {
    if |s| == 0 then 0 else (if s[0] == '?' then 1 else 0) + Placeholders(s[1..])
  }

  lemma {:induction false} PlaceholdersConcat(a: string, b: string)
    ensures Placeholders(a + b) == Placeholders(a) + Placeholders(b)
  {
    if |a| == 0 {
      assert a + b == b;
    } else {
      assert (a + b)[0] == a[0];
      assert (a + b)[1..] == a[1..] + b;
      PlaceholdersConcat(a[1..], b);
    }
  }

  predicate NoMarks(s: string)
  {
    forall i :: 0 <= i < |s| ==> s[i] != '?'
  }

  lemma {:induction false} PlaceholdersNone(s: string)
    requires NoMarks(s)
    ensures Placeholders(s) == 0
  {
    if |s| > 0 {
      PlaceholdersNone(s[1..]);
    }
  }

  /** A text without placeholders followed by one placeholder. */
  lemma OneMark(text: string)
    requires NoMarks(text)
    ensures Placeholders(text + "?") == 1
  {
    PlaceholdersNone(text);
    PlaceholdersConcat(text, "?");
  }

  lemma FourFragments(a: string, b: string, c: string, d: string)
    ensures Placeholders(a + b + c + d) == Placeholders(a) + Placeholders(b) + Placeholders(c) + Placeholders(d)
  {
    PlaceholdersConcat(a, b);
    PlaceholdersConcat(a + b, c);
    PlaceholdersConcat(a + b + c, d);
  }

  /** A clause built from a head and up to two optional tails. */
  lemma ThreeParts(a: string, b: string, c: string)
    ensures Placeholders(a + b) == Placeholders(a) + Placeholders(b)
    ensures Placeholders(a + c) == Placeholders(a) + Placeholders(c)
    ensures Placeholders(a + b + c) == Placeholders(a) + Placeholders(b) + Placeholders(c)
  {
    PlaceholdersConcat(a, b);
    PlaceholdersConcat(a, c);
    PlaceholdersConcat(a + b, c);
  }
}
