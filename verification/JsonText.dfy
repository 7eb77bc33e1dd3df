/** U+0000 in an encoded JSON value: an escape that starts at a backslash which is not itself escaped. */
module JsonText {
  import opened Text

  const BACKSLASH: byte := 92
  /** The characters u0000. */
  const ESCAPED_NUL: Text := [117, 48, 48, 48, 48]

  /** A JSON text that escapes U+0000 in one of its strings. */
  predicate EscapesNul(json: Text) {
    json != [] &&
    if json[0] == BACKSLASH then
      |json| >= 2 && (ESCAPED_NUL <= json[1..] || EscapesNul(json[2..]))
    else EscapesNul(json[1..])
  }

  /** How many backslashes stand directly before position `i`. */
  function Backslashes(s: Text, i: nat): nat
    requires i <= |s|
  {
    if i == 0 || s[i - 1] != 92 then 0 else 1 + Backslashes(s, i - 1)
  }

  /** At position `i` an escape begins, and it is the one of U+0000. */
  predicate NulAt(s: Text, i: nat) {
    i + 6 <= |s| && s[i..i + 6] == [92, 117, 48, 48, 48, 48] && Backslashes(s, i) % 2 == 0
  }

  lemma {:induction false} AfterPlain(s: Text, i: nat)
    requires s != [] && s[0] != 92 && i < |s|
    ensures Backslashes(s, i + 1) == Backslashes(s[1..], i)
  {
    if i > 0 {
      AfterPlain(s, i - 1);
    }
  }

  lemma {:induction false} AfterEscape(s: Text, i: nat)
    requires |s| >= 2 && s[0] == 92 && i + 2 <= |s|
    ensures Backslashes(s, i + 2) % 2 == Backslashes(s[2..], i) % 2
  {
    if i > 0 {
      AfterEscape(s, i - 1);
    } else {
      assert Backslashes(s, 1) == 1;
    }
  }

  lemma NulAfterPlain(s: Text, i: nat)
    requires s != [] && s[0] != 92
    ensures NulAt(s, i + 1) <==> NulAt(s[1..], i)
  {
    if i < |s| {
      AfterPlain(s, i);
    }
    if i + 7 <= |s| {
      assert s[i + 1..i + 7] == s[1..][i..i + 6];
    }
  }

  lemma NulAfterEscape(s: Text, i: nat)
    requires |s| >= 2 && s[0] == 92
    ensures NulAt(s, i + 2) <==> NulAt(s[2..], i)
  {
    if i + 2 <= |s| {
      AfterEscape(s, i);
    }
    if i + 8 <= |s| {
      assert s[i + 2..i + 8] == s[2..][i..i + 6];
    }
  }

  lemma NulAtStart(s: Text)
    requires |s| >= 2 && s[0] == 92
    ensures NulAt(s, 0) <==> ESCAPED_NUL <= s[1..]
    ensures !NulAt(s, 1)
  {
    if |s| >= 6 {
      assert s[0..6] == [s[0]] + s[1..6];
      assert s[1..6] == s[1..][..5];
    }
    assert Backslashes(s, 1) == 1;
  }

  lemma {:induction false} EscapesNulIff(s: Text)
    ensures EscapesNul(s) <==> exists i: nat :: NulAt(s, i)
    decreases |s|
  {
    if s == [] || (s[0] == 92 && |s| < 2) {
      assert forall i: nat :: !NulAt(s, i);
    } else if s[0] != 92 {
      EscapesNulIff(s[1..]);
      if i: nat :| NulAt(s, i) {
        assert i > 0 by {
          assert s[i..i + 6][0] == s[i];
        }
        NulAfterPlain(s, i - 1);
      }
      if i: nat :| NulAt(s[1..], i) {
        NulAfterPlain(s, i);
      }
    } else {
      EscapesNulIff(s[2..]);
      NulAtStart(s);
      if i: nat :| NulAt(s, i) {
        if i >= 2 {
          NulAfterEscape(s, i - 2);
        }
      }
      if i: nat :| NulAt(s[2..], i) {
        NulAfterEscape(s, i);
      }
    }
  }
}
