/**
 * PostgreSQL's `ILIKE` operator, which the listing endpoint applies to the
 * pattern `%term%`. In a pattern `%` stands for any run of characters, `_` for
 * any one character, and `\` (the default escape character) makes the next
 * character literal. Case is folded for ASCII letters only.
 */
module Like {

  function Lower(c: char): char {
    if 'A' <= c <= 'Z' then ((c as int) + 32) as char else c
  }

  predicate SameCI(a: char, b: char) {
    Lower(a) == Lower(b)
  }

  /**
   * `text ILIKE pattern` for a pattern that `ValidPattern` accepts. Without a
   * wildcard or an escape the pattern only matches texts of its own length.
   */
  predicate Match(text: string, pattern: string)
    ensures Match(text, pattern) && Plain(pattern) ==> |text| == |pattern|
    decreases |text| + |pattern|
  {
    if pattern == [] then text == []
    else if pattern[0] == '%' then
      Match(text, pattern[1..]) || (text != [] && Match(text[1..], pattern))
    else if pattern[0] == '_' then
      text != [] && Match(text[1..], pattern[1..])
    else if pattern[0] == '\\' && |pattern| >= 2 then
      text != [] && SameCI(text[0], pattern[1]) && Match(text[1..], pattern[2..])
    else
      text != [] && SameCI(text[0], pattern[0]) && Match(text[1..], pattern[1..])
  }

  /** PostgreSQL rejects a pattern that ends with an unescaped escape character. */
  predicate ValidPattern(pattern: string) {
    if pattern == [] then true
    else if pattern[0] == '\\' then |pattern| >= 2 && ValidPattern(pattern[2..])
    else ValidPattern(pattern[1..])
  }

  /** A term with no character that `ILIKE` treats specially. */
  predicate Plain(w: string) {
    forall i :: 0 <= i < |w| ==> w[i] != '%' && w[i] != '_' && w[i] != '\\'
  }

  predicate EqualCI(a: string, b: string) {
    |a| == |b| && forall i :: 0 <= i < |a| ==> SameCI(a[i], b[i])
  }

  /** `w` occurs in `text` at position `i`, ignoring ASCII case. */
  predicate OccursAt(text: string, w: string, i: int) {
    0 <= i && i + |w| <= |text| && EqualCI(text[i..i + |w|], w)
  }

  /** `w` occurs in `text`, ignoring ASCII case. */
  predicate ContainsCI(text: string, w: string) {
    exists i | 0 <= i <= |text| :: OccursAt(text, w, i)
  }

  lemma {:induction false} PercentMatchesAll(text: string)
    ensures Match(text, "%")
  {
    assert "%"[1..] == "";
    if text != [] {
      PercentMatchesAll(text[1..]);
    }
  }

  lemma {:induction false} LeadingPercent(text: string, q: string)
    ensures Match(text, "%" + q) <==> exists i :: 0 <= i <= |text| && Match(text[i..], q)
    decreases |text|
  {
    var p := "%" + q;
    assert p[0] == '%' && p[1..] == q;
    assert text[0..] == text;
    if text != [] {
      LeadingPercent(text[1..], q);
      if Match(text, p) && !Match(text, q) {
        var j :| 0 <= j <= |text[1..]| && Match(text[1..][j..], q);
        assert text[1..][j..] == text[1 + j..];
      }
      if i :| 0 <= i <= |text| && Match(text[i..], q) {
        if i > 0 {
          assert text[1..][i - 1..] == text[i..];
        }
      }
    }
  }

  lemma {:induction false} LiteralThenPercent(text: string, w: string)
    requires Plain(w)
    ensures Match(text, w + "%") <==> |w| <= |text| && EqualCI(text[..|w|], w)
  {
    if w == [] {
      assert w + "%" == "%";
      PercentMatchesAll(text);
    } else {
      var p := w + "%";
      assert p[0] == w[0] && p[1..] == w[1..] + "%";
      assert Plain(w[1..]);
      if text != [] {
        LiteralThenPercent(text[1..], w[1..]);
        if |w| <= |text| {
          var a := text[..|w|];
          assert a[1..] == text[1..][..|w| - 1];
          assert EqualCI(a, w) <==> SameCI(a[0], w[0]) && EqualCI(a[1..], w[1..]) by {
            if SameCI(a[0], w[0]) && EqualCI(a[1..], w[1..]) {
              forall k | 0 <= k < |a|
                ensures SameCI(a[k], w[k])
              {
                if k > 0 {
                  assert a[k] == a[1..][k - 1] && w[k] == w[1..][k - 1];
                }
              }
            }
          }
        }
      }
    }
  }

  /** For a plain term, `text ILIKE '%' || term || '%'` is a case-insensitive substring test. */
  lemma SubstringSearch(text: string, w: string)
    requires Plain(w)
    ensures Match(text, "%" + w + "%") <==> ContainsCI(text, w)
  {
    assert "%" + w + "%" == "%" + (w + "%");
    LeadingPercent(text, w + "%");
    if Match(text, "%" + w + "%") {
      var i :| 0 <= i <= |text| && Match(text[i..], w + "%");
      LiteralThenPercent(text[i..], w);
      assert text[i..][..|w|] == text[i..i + |w|];
      assert OccursAt(text, w, i);
    }
    if ContainsCI(text, w) {
      var i :| 0 <= i <= |text| && OccursAt(text, w, i);
      LiteralThenPercent(text[i..], w);
      assert text[i..][..|w|] == text[i..i + |w|];
    }
  }

  /**
   * Any pattern that ends in `%` is accepted: the last character is never a
   * lone escape, so `'%' || term || '%'` is valid whatever the term holds.
   */
  lemma {:induction false} EndingInPercentValid(s: string)
    ensures ValidPattern(s + "%")
    decreases |s|
  {
    if s == [] {
      assert s + "%" == "%" && "%"[1..] == [];
    } else if s[0] == '\\' && |s| >= 2 {
      assert (s + "%")[2..] == s[2..] + "%";
      EndingInPercentValid(s[2..]);
    } else if s[0] == '\\' {
      assert s + "%" == "\\%" && "\\%"[2..] == [];
    } else {
      assert (s + "%")[1..] == s[1..] + "%";
      EndingInPercentValid(s[1..]);
    }
  }

  /** A term that is itself `%` is not escaped, so the search keeps every text. */
  lemma PercentTermMatchesEverything(text: string)
    ensures Match(text, "%" + "%" + "%")
  {
    var p := "%" + "%" + "%";
    assert p[1..] == "%%" && p[1..][1..] == "%";
    assert "%%"[0] == '%' && "%%"[1..] == "%";
    PercentMatchesAll(text);
  }
}
