/**
 * The outlet's sheet name in the master log: the store name with the
 * characters a spreadsheet forbids in sheet names (backslash, slash,
 * asterisk, question mark, colon, double quote, square brackets) removed,
 * cut to the 31-character limit.
 */
module SheetName {
  import opened Sorting

  const MaxLength: nat := 31

  predicate IsForbidden(c: char) {
    c == '\\' || c == '/' || c == '*' || c == '?' || c == ':' || c == '"' || c == '[' || c == ']'
  }

  /** The store name with every forbidden character removed, the rest in order. */
  function StripForbidden(s: string): (r: string)
    ensures |r| <= |s|
    ensures forall c :: c in r <==> c in s && !IsForbidden(c)
    ensures forall c :: Occurrences(r, c) == if IsForbidden(c) then 0 else Occurrences(s, c)
    decreases |s|
  {
    if |s| == 0 then ""
    else
      assert forall c :: c in s <==> c == s[0] || c in s[1..];
      var rest := StripForbidden(s[1..]);
      if IsForbidden(s[0]) then rest
      else
        assert ([s[0]] + rest)[1..] == rest;
        [s[0]] + rest
  }

  /** One character is kept exactly when it is not forbidden. */
  lemma StripOne(c: char)
    ensures StripForbidden([c]) == if IsForbidden(c) then "" else [c]
  {
    assert [c][1..] == "";
  }

  /**
   * Stripping works character by character: the stripped halves of a text
   * joined are the stripped text, so the kept characters stay in order.
   */
  lemma {:induction false} StripConcat(a: string, b: string)
    ensures StripForbidden(a + b) == StripForbidden(a) + StripForbidden(b)
    decreases |a|
  {
    if |a| == 0 {
      assert a + b == b;
    } else {
      var head := if IsForbidden(a[0]) then "" else [a[0]];
      assert (a + b)[0] == a[0];
      assert (a + b)[1..] == a[1..] + b;
      StripConcat(a[1..], b);
      assert StripForbidden(a + b) == head + StripForbidden(a[1..] + b);
      Regroup(head, StripForbidden(a[1..]), StripForbidden(b), StripForbidden(a), StripForbidden(a[1..] + b));
    }
  }

  /** Stripping keeps text that has no forbidden character as it is. */
  lemma {:induction false} StripClean(s: string)
    requires forall i :: 0 <= i < |s| ==> !IsForbidden(s[i])
    ensures StripForbidden(s) == s
    decreases |s|
  {
    if |s| > 0 {
      StripClean(s[1..]);
      assert [s[0]] + s[1..] == s;
    }
  }

  function SheetNameOf(storeName: string): (r: string)
    ensures |r| <= MaxLength
    ensures forall i :: 0 <= i < |r| ==> !IsForbidden(r[i])
    ensures var clean := StripForbidden(storeName);
      |r| == (if |clean| < MaxLength then |clean| else MaxLength) && r == clean[..|r|]
  {
    var clean := StripForbidden(storeName);
    assert forall i :: 0 <= i < |clean| ==> clean[i] in clean;
    if |clean| <= MaxLength then clean else clean[..MaxLength]
  }

  /** A sheet name is its own sheet name. */
  lemma SheetNameIdempotent(storeName: string)
    ensures SheetNameOf(SheetNameOf(storeName)) == SheetNameOf(storeName)
  {
    StripClean(SheetNameOf(storeName));
  }
}
