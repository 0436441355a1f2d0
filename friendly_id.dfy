/** `os_friendly_id`: the name under which a synced folder is registered in
    the VM's shared-folder table. It is
    `id.gsub(/[*":<>?|\/\\]/, '_').sub(/^_/, '')`. */
module FriendlyId {

  /** The characters the substitution replaces: `* " : < > ? | / \`. */
  predicate Forbidden(c: char)
  {
    c == '*' || c == '"' || c == ':' || c == '<' || c == '>' ||
    c == '?' || c == '|' || c == '/' || c == '\\'
  }

  /** One character after the `gsub`. */
  function Replaced(c: char): (r: char)
  {
    if Forbidden(c) then '_' else c
  }

  /** The `gsub`: every forbidden character becomes `_`. */
  function ReplaceForbidden(s: string): (r: string)
    decreases |s|
  {
    if s == [] then [] else ReplaceForbidden(s[..|s| - 1]) + [Replaced(s[|s| - 1])]
  }

  lemma {:induction false} ReplaceForbiddenAt(s: string)
    ensures |ReplaceForbidden(s)| == |s|
    ensures forall i :: 0 <= i < |s| ==> ReplaceForbidden(s)[i] == Replaced(s[i])
    decreases |s|
  {
    if s != [] {
      var init := s[..|s| - 1];
      ReplaceForbiddenAt(init);
      assert forall i :: 0 <= i < |init| ==> s[i] == init[i];
    }
  }

  /** Ruby's `^` is a line anchor: `_` at position `i` matches `/^_/` when `i`
      starts the string or follows a newline. */
  predicate LineStartUnderscore(s: string, i: nat)
    requires i < |s|
  {
    s[i] == '_' && (i == 0 || s[i - 1] == '\n')
  }

  /** Where `sub(/^_/, '')` matches when searching from `from`: the first
      line-start `_`, or `|s|` when there is none. */
  function FirstLineStartUnderscore(s: string, from: nat): (k: nat)
    requires from <= |s|
    ensures from <= k <= |s|
    decreases |s| - from
  {
    if from == |s| then |s|
    else if LineStartUnderscore(s, from) then from
    else FirstLineStartUnderscore(s, from + 1)
  }

  lemma {:induction false} FirstLineStartUnderscoreIsFirst(s: string, from: nat)
    requires from <= |s|
    ensures FirstLineStartUnderscore(s, from) < |s| ==>
      LineStartUnderscore(s, FirstLineStartUnderscore(s, from))
    ensures forall j :: from <= j < FirstLineStartUnderscore(s, from) ==> !LineStartUnderscore(s, j)
    decreases |s| - from
  {
    if from < |s| && !LineStartUnderscore(s, from) {
      FirstLineStartUnderscoreIsFirst(s, from + 1);
    }
  }

  /** The `sub`: the first line-start `_` is removed, if there is one; the
      rest keeps its order. */
  function StripLineStartUnderscore(s: string): (r: string)
    ensures var k := FirstLineStartUnderscore(s, 0);
      (forall j :: 0 <= j < k ==> !LineStartUnderscore(s, j)) &&
      (k == |s| ==> r == s) &&
      (k < |s| ==> LineStartUnderscore(s, k) && |r| == |s| - 1 && r[..k] == s[..k] && r[k..] == s[k + 1..])
    ensures forall c :: c in r ==> c in s
  {
    FirstLineStartUnderscoreIsFirst(s, 0);
    var k := FirstLineStartUnderscore(s, 0);
    if k == |s| then s else s[..k] + s[k + 1..]
  }

  /** The sanitised name; it never holds a forbidden character. */
  function OsFriendlyId(id: string): (r: string)
    ensures forall c :: c in r ==> !Forbidden(c)
  {
    ReplaceForbiddenAt(id);
    StripLineStartUnderscore(ReplaceForbidden(id))
  }

  /** On a single line a line-start `_` can only be the first character. */
  lemma {:induction false} NoLineStartAfterFirst(s: string, from: nat)
    requires '\n' !in s
    requires 1 <= from <= |s|
    ensures FirstLineStartUnderscore(s, from) == |s|
    decreases |s| - from
  {
    if from < |s| {
      assert s[from - 1] in s;
      NoLineStartAfterFirst(s, from + 1);
    }
  }

  /** For an id without newlines: each character is replaced in place, and
      one leading `_` of the replaced string, if present, is dropped. So the
      length is the id's length, or one less. */
  lemma OsFriendlyIdSingleLine(id: string)
    requires '\n' !in id
    ensures var d := if |id| > 0 && Replaced(id[0]) == '_' then 1 else 0;
      |OsFriendlyId(id)| == |id| - d &&
      forall k :: 0 <= k < |OsFriendlyId(id)| ==> OsFriendlyId(id)[k] == Replaced(id[k + d])
  {
    var s := ReplaceForbidden(id);
    ReplaceForbiddenAt(id);
    var r := StripLineStartUnderscore(s);
    assert r == OsFriendlyId(id);
    if |s| == 0 {
      assert r == s;
    } else {
      assert '\n' !in s by {
        forall i | 0 <= i < |s| ensures s[i] != '\n' {
          assert id[i] in id;
        }
      }
      NoLineStartAfterFirst(s, 1);
      var k := FirstLineStartUnderscore(s, 0);
      if s[0] == '_' {
        assert LineStartUnderscore(s, 0);
        assert k == 0;
        assert r == s[1..];
      } else {
        assert !LineStartUnderscore(s, 0);
        assert k == FirstLineStartUnderscore(s, 1) == |s|;
        assert r == s;
      }
    }
  }

  /** A leading separator is dropped: `/secret` gives `secret`. */
  lemma OsFriendlyIdDropsLeadingSeparator()
    ensures OsFriendlyId("/secret") == "secret"
  {
    OsFriendlyIdSingleLine("/secret");
  }

  /** Only one leading `_` is removed: `__x` gives `_x`. */
  lemma OsFriendlyIdDropsOneUnderscore()
    ensures OsFriendlyId("__x") == "_x"
  {
    OsFriendlyIdSingleLine("__x");
  }

  /** Inner separators are replaced in place: `a:b/c` gives `a_b_c`. */
  lemma OsFriendlyIdReplacesInPlace()
    ensures OsFriendlyId("a:b/c") == "a_b_c"
  {
    OsFriendlyIdSingleLine("a:b/c");
  }

  /** `^` also matches after a newline, so there the `_` a separator became
      is removed. */
  lemma OsFriendlyIdMatchesAfterNewline()
    ensures OsFriendlyId("a\n/b") == "a\nb"
  {
    var s := ReplaceForbidden("a\n/b");
    ReplaceForbiddenAt("a\n/b");
    assert s == "a\n_b";
    assert FirstLineStartUnderscore(s, 0) == 2;
  }
}
