/**
 * The `replacements` map that `process_template` builds from the client
 * record, and what rewriting one run's text with it does: Python's
 * `str.replace` once per key, in the map's insertion order, each step working
 * on the result of the previous one.
 */
module Placeholders {
  import opened Replace

  /** The client record collected by the form (`date` is already formatted). */
  datatype ClientInfo = ClientInfo(
    name: string,
    company: string,
    address1: string,
    address2: string,
    date: string)

  const ClientNameKey: string := "<<CLIENT_NAME>>"
  const CompanyKey: string := "<<COMPANY>>"
  const AddressKey: string := "<<ADDRESS>>"
  const AddressLine1Key: string := "<<ADDRESS_LINE_1>>"
  const AddressLine2Key: string := "<<ADDRESS_LINE_2>>"
  const DateKey: string := "<<DATE>>"

  /** The six placeholder tokens, in the map's insertion order. */
  const Keys: seq<string> := [ClientNameKey, CompanyKey, AddressKey, AddressLine1Key, AddressLine2Key, DateKey]

  /** A key/value list `str.replace` can be applied with: no key is empty. */
  predicate ValidPairs(pairs: seq<(string, string)>)
  {
    forall i :: 0 <= i < |pairs| ==> |pairs[i].0| > 0
  }

  /**
   * The value of `<<ADDRESS>>`: both lines separated by a line break when the
   * second line is non-empty (Python truthiness), otherwise the first line alone.
   */
  function AddressValue(c: ClientInfo): string
  {
    if c.address2 != "" then c.address1 + "\n" + c.address2 else c.address1
  }

  /** The `replacements` dictionary, as its items in insertion order. */
  function Replacements(c: ClientInfo): (pairs: seq<(string, string)>)
    ensures ValidPairs(pairs)
    ensures |pairs| == |Keys| && forall i :: 0 <= i < |Keys| ==> pairs[i].0 == Keys[i]
    ensures pairs[0].1 == c.name && pairs[1].1 == c.company
    ensures pairs[2].1 == (if c.address2 == "" then c.address1 else c.address1 + "\n" + c.address2)
    ensures pairs[3].1 == c.address1 && pairs[4].1 == c.address2 && pairs[5].1 == c.date
  {
    [(ClientNameKey, c.name),
     (CompanyKey, c.company),
     (AddressKey, AddressValue(c)),
     (AddressLine1Key, c.address1),
     (AddressLine2Key, c.address2),
     (DateKey, c.date)]
  }

  /**
   * One run's text after the inner loop of `replace_text`: `str.replace` for
   * each pair in order, each on the previous result.
   */
  function Substitute(text: string, pairs: seq<(string, string)>): string
    requires ValidPairs(pairs)
    decreases |pairs|
  {
    if pairs == [] then text
    else
      var last := pairs[|pairs| - 1];
      ReplaceAll(Substitute(text, pairs[..|pairs| - 1]), last.0, last.1)
  }

  /** `Substitute` applied `n` times: the text of a run the traversal reaches `n` times. */
  function SubstituteTimes(text: string, pairs: seq<(string, string)>, n: nat): string
    requires ValidPairs(pairs)
  {
    if n == 0 then text else Substitute(SubstituteTimes(text, pairs, n - 1), pairs)
  }

  /** Text in which no key occurs comes out of `Substitute` unchanged. */
  lemma {:induction false} SubstituteNoKeys(text: string, pairs: seq<(string, string)>)
    requires ValidPairs(pairs)
    requires forall i :: 0 <= i < |pairs| ==> !Contains(text, pairs[i].0)
    ensures Substitute(text, pairs) == text
    decreases |pairs|
  {
    if pairs != [] {
      var front := pairs[..|pairs| - 1];
      SubstituteNoKeys(text, front);
      ReplaceAbsent(text, pairs[|pairs| - 1].0, pairs[|pairs| - 1].1);
    }
  }

  /** A run containing none of the six placeholders keeps its text exactly. */
  lemma RunWithoutPlaceholdersUnchanged(text: string, c: ClientInfo)
    requires forall k :: k in Keys ==> !Contains(text, k)
    ensures Substitute(text, Replacements(c)) == text
  {
    var pairs := Replacements(c);
    forall i | 0 <= i < |pairs| ensures !Contains(text, pairs[i].0) {
      assert pairs[i].0 == Keys[i];
    }
    SubstituteNoKeys(text, pairs);
  }

  /** ... and it keeps it however many times the traversal reaches it. */
  lemma {:induction false} SubstituteTimesNoKeys(text: string, pairs: seq<(string, string)>, n: nat)
    requires ValidPairs(pairs)
    requires forall i :: 0 <= i < |pairs| ==> !Contains(text, pairs[i].0)
    ensures SubstituteTimes(text, pairs, n) == text
  {
    if n > 0 {
      SubstituteTimesNoKeys(text, pairs, n - 1);
      SubstituteNoKeys(text, pairs);
    }
  }

  /** Reaching a run `a` times and then `b` more times is reaching it `a + b` times. */
  lemma {:induction false} SubstituteTimesAdd(text: string, pairs: seq<(string, string)>, a: nat, b: nat)
    requires ValidPairs(pairs)
    ensures SubstituteTimes(SubstituteTimes(text, pairs, a), pairs, b) == SubstituteTimes(text, pairs, a + b)
  {
    if b > 0 {
      SubstituteTimesAdd(text, pairs, a, b - 1);
    }
  }

  /** The text up to the first line break (all of it when there is none). */
  function FirstLine(s: string): string
  {
    if s == [] || s[0] == '\n' then [] else [s[0]] + FirstLine(s[1..])
  }

  /** The text after the first line break (empty when there is none). */
  function AfterFirstLine(s: string): string
  {
    if s == [] then [] else if s[0] == '\n' then s[1..] else AfterFirstLine(s[1..])
  }

  /**
   * The combined `<<ADDRESS>>` value loses nothing: when the first address
   * line has no line break of its own, its first line is `address1` and the
   * rest is `address2` (empty when the second line was left blank).
   */
  lemma AddressValueSplits(c: ClientInfo)
    requires '\n' !in c.address1
    ensures FirstLine(AddressValue(c)) == c.address1
    ensures AfterFirstLine(AddressValue(c)) == c.address2
  {
    if c.address2 != "" {
      LinesOfJoined(c.address1, c.address2);
    } else {
      LinesOfJoined(c.address1, "");
      NoBreak(c.address1);
    }
  }

  lemma {:induction false} LinesOfJoined(a: string, b: string)
    requires '\n' !in a
    ensures FirstLine(a + "\n" + b) == a && AfterFirstLine(a + "\n" + b) == b
  {
    if a != [] {
      LinesOfJoined(a[1..], b);
      assert (a + "\n" + b)[1..] == a[1..] + "\n" + b;
    }
  }

  lemma {:induction false} NoBreak(a: string)
    requires '\n' !in a
    ensures FirstLine(a) == a && AfterFirstLine(a) == ""
  {
    if a != [] {
      NoBreak(a[1..]);
    }
  }

  /**
   * A replacement can recreate its own key from the text around it, although
   * no value contains `<<` or `>>`: for this client, one pass over the run
   * `<<<<DATE>>>>` leaves `<<DATE>>`, and a second pass changes it again, so a
   * run reached twice may differ from one reached once.
   */
  lemma ReplacementCanRecreateKey()
    ensures SubstituteTimes("<<<<DATE>>>>", Replacements(ClientInfo("N", "C", "A", "", "DATE")), 1) == DateKey
    ensures SubstituteTimes("<<<<DATE>>>>", Replacements(ClientInfo("N", "C", "A", "", "DATE")), 2) == "DATE"
  {
    var pairs := Replacements(ClientInfo("N", "C", "A", "", "DATE"));
    OnlyDateKeyOccurs(pairs);
    DateReplacementJoins();
    assert pairs[..5] == pairs[..|pairs| - 1];
    assert Substitute("<<<<DATE>>>>", pairs) == DateKey;
    assert DateKey[8..] == [];
    assert Substitute(DateKey, pairs) == "DATE";
  }

  /** Of the six keys, only the date's occurs in `<<<<DATE>>>>` or `<<DATE>>`. */
  lemma OnlyDateKeyOccurs(pairs: seq<(string, string)>)
    requires pairs == Replacements(ClientInfo("N", "C", "A", "", "DATE"))
    ensures Substitute("<<<<DATE>>>>", pairs[..5]) == "<<<<DATE>>>>"
    ensures Substitute(DateKey, pairs[..5]) == DateKey
  {
    var front := pairs[..5];
    forall i | 0 <= i < |front|
      ensures ReplaceAll("<<<<DATE>>>>", front[i].0, front[i].1) == "<<<<DATE>>>>"
      ensures ReplaceAll(DateKey, front[i].0, front[i].1) == DateKey
    {
      if i == 1 || i == 2 {
        AbsentFromAngles(front[i].0, front[i].1);
      }
    }
    SubstituteFixed("<<<<DATE>>>>", front);
    SubstituteFixed(DateKey, front);
  }

  /** Text that each replacement on its own leaves unchanged comes out of `Substitute` unchanged. */
  lemma {:induction false} SubstituteFixed(text: string, pairs: seq<(string, string)>)
    requires ValidPairs(pairs)
    requires forall i :: 0 <= i < |pairs| ==> ReplaceAll(text, pairs[i].0, pairs[i].1) == text
    ensures Substitute(text, pairs) == text
    decreases |pairs|
  {
    if pairs != [] {
      SubstituteFixed(text, pairs[..|pairs| - 1]);
    }
  }

  /** A key of eleven characters whose third is not `<` does not occur in `<<<<DATE>>>>`. */
  lemma AbsentFromAngles(key: string, val: string)
    requires |key| == 11 && key[2] != '<'
    ensures ReplaceAll("<<<<DATE>>>>", key, val) == "<<<<DATE>>>>"
  {
    var s := "<<<<DATE>>>>";
    assert s[..11][2] != key[2];
    assert s[1..][..11][2] != key[2];
    assert ReplaceAll(s[1..][1..], key, val) == s[2..];
    assert s == [s[0]] + ([s[1]] + s[2..]);
  }

  /** Replacing `<<DATE>>` by `DATE` in `<<<<DATE>>>>` joins the `<<` and `>>` around it. */
  lemma DateReplacementJoins()
    ensures ReplaceAll("<<<<DATE>>>>", DateKey, "DATE") == DateKey
  {
    var s := "<<<<DATE>>>>";
    assert ReplaceAll(s[10..], DateKey, "DATE") == ">>";
    assert s[2..][..8] == DateKey && s[2..][8..] == s[10..];
    assert s[1..][..8][2] != DateKey[2] && s[1..][1..] == s[2..];
    assert s[..8][2] != DateKey[2];
  }

  /** A one-placeholder template, filled in for one sample client. */
  lemma ClientNameExample()
    ensures Substitute("<<CLIENT_NAME>>", Replacements(ClientInfo("Jane Doe", "Acme", "1 Main St", "", "January 01, 2024")))
         == "Jane Doe"
  {
    var pairs := Replacements(ClientInfo("Jane Doe", "Acme", "1 Main St", "", "January 01, 2024"));
    assert Substitute("<<CLIENT_NAME>>", pairs[..1]) == "Jane Doe";
    assert pairs[..2][..1] == pairs[..1];
    assert Substitute("<<CLIENT_NAME>>", pairs[..2]) == "Jane Doe";
    assert pairs[..3][..2] == pairs[..2];
    assert Substitute("<<CLIENT_NAME>>", pairs[..3]) == "Jane Doe";
    assert pairs[..4][..3] == pairs[..3];
    assert Substitute("<<CLIENT_NAME>>", pairs[..4]) == "Jane Doe";
    assert pairs[..5][..4] == pairs[..4];
    assert Substitute("<<CLIENT_NAME>>", pairs[..5]) == "Jane Doe";
    assert pairs[..5] == pairs[..|pairs| - 1];
  }
}
