/**
 * Schema-name sanitisation, shared by the connection provider
 * (`sanitizeSchemaName`) and the tenant resolver (`sanitizeTenantId`):
 * the two are the same code, so the model defines the function once.
 *
 *   1. a blank input (after Java's `trim`) gives the default schema `public`;
 *   2. every character outside `[a-zA-Z0-9_]` is dropped;
 *   3. an empty result, or one whose first character is not a letter, gives `public`;
 *   4. the result is cut to 63 characters and lower-cased.
 */
module SchemaNames {

  /** The default tenant identifier and schema. */
  const Default: string := "public"

  /** PostgreSQL's identifier length limit used by the truncation step. */
  const MaxIdentifierLength: nat := 63

  predicate IsAsciiLetter(c: char) { 'a' <= c <= 'z' || 'A' <= c <= 'Z' }

  predicate IsAsciiDigit(c: char) { '0' <= c <= '9' }

  /** The class `[a-zA-Z0-9_]` kept by the filtering step. */
  predicate IsWordChar(c: char) { IsAsciiLetter(c) || IsAsciiDigit(c) || c == '_' }

  /** The class `[a-z0-9_]`: what a sanitised name is made of. */
  predicate IsLowerWordChar(c: char) { 'a' <= c <= 'z' || IsAsciiDigit(c) || c == '_' }

  /** Java's `String.trim` strips every character whose code is at most U+0020. */
  predicate IsTrimmed(c: char) { c <= ' ' }

  function TrimStart(s: string): (r: string)
    ensures |r| <= |s| && r == s[|s| - |r|..]
    ensures r != [] ==> !IsTrimmed(r[0])
  {
    if s != [] && IsTrimmed(s[0]) then TrimStart(s[1..]) else s
  }

  function TrimEnd(s: string): (r: string)
    ensures |r| <= |s| && r == s[..|r|]
    ensures r != [] ==> !IsTrimmed(r[|r| - 1])
  {
    if s != [] && IsTrimmed(s[|s| - 1]) then TrimEnd(s[..|s| - 1]) else s
  }

  /** Java's `String.trim`. */
  function Trim(s: string): string
  {
    TrimEnd(TrimStart(s))
  }

  /** Java's `trim().isEmpty()`: the string has no character above U+0020 (see `BlankIffTrimEmpty`). */
  predicate IsBlank(s: string)
  {
    forall i :: 0 <= i < |s| ==> IsTrimmed(s[i])
  }

  /** `TrimStart` strips everything exactly when every character is trimmed. */
  lemma {:induction false} TrimStartEmpty(s: string)
    ensures TrimStart(s) == [] <==> IsBlank(s)
  {
    if s != [] {
      var rest := s[1..];
      TrimStartEmpty(rest);
      if IsTrimmed(s[0]) {
        assert IsBlank(s) <==> IsBlank(rest) by {
          if IsBlank(rest) {
            forall i | 0 <= i < |s| ensures IsTrimmed(s[i]) {
              if i > 0 { assert s[i] == rest[i - 1]; }
            }
          }
          if IsBlank(s) {
            forall i | 0 <= i < |rest| ensures IsTrimmed(rest[i]) { assert rest[i] == s[i + 1]; }
          }
        }
      }
    }
  }

  /** `TrimEnd` never strips a string whose first character survives trimming. */
  lemma {:induction false} TrimEndKeepsLead(x: string)
    requires x != [] && !IsTrimmed(x[0])
    ensures TrimEnd(x) != []
  {
    if IsTrimmed(x[|x| - 1]) {
      var init := x[..|x| - 1];
      assert init[0] == x[0];
      TrimEndKeepsLead(init);
    }
  }

  /** The blank test is Java's `trim().isEmpty()`. */
  lemma BlankIffTrimEmpty(s: string)
    ensures IsBlank(s) <==> Trim(s) == []
  {
    TrimStartEmpty(s);
    var t := TrimStart(s);
    if t != [] {
      TrimEndKeepsLead(t);
    }
  }

  /** `replaceAll("[^a-zA-Z0-9_]", "")`: keeps the word characters, in order. */
  function KeepWordChars(s: string): (r: string)
    ensures |r| <= |s|
    ensures forall i :: 0 <= i < |r| ==> IsWordChar(r[i])
  {
    if s == [] then []
    else (if IsWordChar(s[0]) then [s[0]] else []) + KeepWordChars(s[1..])
  }

  /** ASCII upper-to-lower case mapping of one character. */
  function LowerChar(c: char): char
  {
    if 'A' <= c <= 'Z' then (c as int + 32) as char else c
  }

  /** `String.toLowerCase`, restricted to ASCII. */
  function ToLower(s: string): (r: string)
    ensures |r| == |s|
    ensures forall i :: 0 <= i < |s| ==> r[i] == LowerChar(s[i])
  {
    seq(|s|, i requires 0 <= i < |s| => LowerChar(s[i]))
  }

  /**
   * The shape every non-default sanitised name has: 1 to 63 characters from
   * `[a-z0-9_]`, the first one a lower-case letter.
   */
  predicate IsSchemaIdentifier(r: string)
  {
    && 1 <= |r| <= MaxIdentifierLength
    && 'a' <= r[0] <= 'z'
    && forall i :: 0 <= i < |r| ==> IsLowerWordChar(r[i])
  }

  /** The `@Pattern` constraint `^[a-zA-Z][a-zA-Z0-9_]*$` on a tenant's schema name. */
  predicate SchemaNamePattern(s: string)
  {
    && |s| >= 1
    && IsAsciiLetter(s[0])
    && forall i :: 0 <= i < |s| ==> IsWordChar(s[i])
  }

  /**
   * The sanitiser's steps after the filter: the word must start with a
   * letter (`Character.isLetter` on a character of `[a-zA-Z0-9_]` holds
   * exactly for the ASCII letters), is cut to 63 characters and lower-cased.
   */
  function FromWordChars(w: string): (r: string)
    requires forall i :: 0 <= i < |w| ==> IsWordChar(w[i])
    ensures r == Default || IsSchemaIdentifier(r)
  {
    if w == [] || !IsAsciiLetter(w[0]) then Default
    else
      var cut := if |w| > MaxIdentifierLength then w[..MaxIdentifierLength] else w;
      LowerWordCharsIsIdentifier(cut);
      ToLower(cut)
  }

  /** The sanitiser, step for step as the source writes it. */
  function Sanitize(s: string): (r: string)
    ensures r == Default || IsSchemaIdentifier(r)
  {
    if IsBlank(s) then Default
    else
      var kept := KeepWordChars(Trim(s));
      if kept == [] || !IsAsciiLetter(kept[0]) then Default
      else
        var cut := if |kept| > MaxIdentifierLength then kept[..MaxIdentifierLength] else kept;
        LowerWordCharsIsIdentifier(cut);
        ToLower(cut)
  }

  /** Lower-casing a letter-led word of at most 63 characters gives a well-formed identifier. */
  lemma LowerWordCharsIsIdentifier(w: string)
    requires 1 <= |w| <= MaxIdentifierLength && IsAsciiLetter(w[0])
    requires forall i :: 0 <= i < |w| ==> IsWordChar(w[i])
    ensures IsSchemaIdentifier(ToLower(w))
  {
    var r := ToLower(w);
    forall i | 0 <= i < |r| ensures IsLowerWordChar(r[i]) {
      assert r[i] == LowerChar(w[i]);
    }
  }


  /** Filtering a string made only of word characters changes nothing. */
  lemma {:induction false} KeepWordCharsOfWord(s: string)
    requires forall i :: 0 <= i < |s| ==> IsWordChar(s[i])
    ensures KeepWordChars(s) == s
  {
    if s != [] {
      KeepWordCharsOfWord(s[1..]);
    }
  }

  lemma {:induction false} KeepWordCharsAppend(a: string, b: string)
    ensures KeepWordChars(a + b) == KeepWordChars(a) + KeepWordChars(b)
  {
    if a == [] {
      assert a + b == b;
    } else {
      assert (a + b)[1..] == a[1..] + b;
      KeepWordCharsAppend(a[1..], b);
    }
  }

  lemma {:induction false} KeepWordCharsTrimStart(s: string)
    ensures KeepWordChars(TrimStart(s)) == KeepWordChars(s)
  {
    if s != [] && IsTrimmed(s[0]) {
      var rest := s[1..];
      calc {
        KeepWordChars(TrimStart(s));
        KeepWordChars(TrimStart(rest));
        { KeepWordCharsTrimStart(rest); }
        KeepWordChars(rest);
        { assert !IsWordChar(s[0]); }
        KeepWordChars(s);
      }
    } else {
      assert TrimStart(s) == s;
    }
  }

  lemma {:induction false} KeepWordCharsTrimEnd(s: string)
    ensures KeepWordChars(TrimEnd(s)) == KeepWordChars(s)
  {
    if s != [] && IsTrimmed(s[|s| - 1]) {
      var init := s[..|s| - 1];
      assert s == init + [s[|s| - 1]];
      KeepWordCharsAppend(init, [s[|s| - 1]]);
      assert KeepWordChars([s[|s| - 1]]) == [];
      KeepWordCharsTrimEnd(init);
    }
  }

  /** Filtering after trimming is filtering alone. */
  lemma KeepWordCharsTrim(s: string)
    ensures KeepWordChars(Trim(s)) == KeepWordChars(s)
  {
    KeepWordCharsTrimEnd(TrimStart(s));
    KeepWordCharsTrimStart(s);
  }

  /**
   * The sanitiser depends only on the word characters of its input: the
   * trimming and the blank test never change the outcome, because the
   * characters they strip are not word characters.
   */
  lemma SanitizeByWordChars(s: string)
    ensures Sanitize(s) == FromWordChars(KeepWordChars(s))
  {
    KeepWordCharsTrim(s);
    if IsBlank(s) {
      BlankIffTrimEmpty(s);
      assert KeepWordChars(s) == KeepWordChars([]) == [];
    } else {
      assert KeepWordChars(Trim(s)) == KeepWordChars(s);
    }
  }

  /** `public` is itself a well-formed identifier. */
  lemma DefaultIsIdentifier()
    ensures IsSchemaIdentifier(Default)
  {
    assert Default == ['p', 'u', 'b', 'l', 'i', 'c'];
  }

  /** A well-formed identifier passes through the sanitiser unchanged. */
  lemma IdentifierIsFixedPoint(x: string)
    requires IsSchemaIdentifier(x)
    ensures Sanitize(x) == x
  {
    IdentifierIsLowerWord(x);
    KeepWordCharsOfWord(x);
    SanitizeByWordChars(x);
    assert FromWordChars(x) == ToLower(x);
  }

  /** An identifier is a letter-led word that lower-casing leaves alone. */
  lemma IdentifierIsLowerWord(x: string)
    requires IsSchemaIdentifier(x)
    ensures IsAsciiLetter(x[0]) && (forall i :: 0 <= i < |x| ==> IsWordChar(x[i])) && ToLower(x) == x
  {
    forall i | 0 <= i < |x|
      ensures IsWordChar(x[i]) && ToLower(x)[i] == x[i]
    {
      assert IsLowerWordChar(x[i]);
    }
  }

  /** The default passes through the sanitiser unchanged. */
  lemma SanitizeDefault()
    ensures Sanitize(Default) == Default
  {
    DefaultIsIdentifier();
    IdentifierIsFixedPoint(Default);
  }

  /** Sanitising twice is sanitising once. */
  lemma SanitizeIdempotent(s: string)
    ensures Sanitize(Sanitize(s)) == Sanitize(s)
  {
    var r := Sanitize(s);
    if r == Default {
      DefaultIsIdentifier();
    }
    IdentifierIsFixedPoint(r);
  }

  /** The default comes back exactly for inputs with no word characters, a non-letter first word character, or letters spelling `public`. */
  lemma SanitizeDefaultIff(s: string)
    ensures var w := KeepWordChars(s);
            Sanitize(s) == Default <==>
              (w == [] || !IsAsciiLetter(w[0]) || ToLower(w) == Default)
  {
    SanitizeByWordChars(s);
    var w := KeepWordChars(s);
    if w != [] && IsAsciiLetter(w[0]) && |w| > MaxIdentifierLength {
      assert |FromWordChars(w)| == MaxIdentifierLength;
      assert |ToLower(w)| > MaxIdentifierLength;
    }
  }

  /**
   * A schema name accepted by the `Tenant` pattern and no longer than 63
   * characters is mapped to its lower-case form; so it becomes `public`
   * only when it spells `public` in some letter case.
   */
  lemma PatternNameSanitizesToLowerCase(s: string)
    requires SchemaNamePattern(s) && |s| <= MaxIdentifierLength
    ensures Sanitize(s) == ToLower(s)
    ensures Sanitize(s) == Default <==> ToLower(s) == Default
  {
    KeepWordCharsOfWord(s);
    SanitizeByWordChars(s);
    assert s[..|s|] == s;
  }

  /** Lower-casing keeps a name within the pattern, and lower-casing again changes nothing. */
  lemma ToLowerKeepsPattern(s: string)
    requires SchemaNamePattern(s)
    ensures SchemaNamePattern(ToLower(s)) && ToLower(ToLower(s)) == ToLower(s)
  {
    var t := ToLower(s);
    forall i | 0 <= i < |t|
      ensures IsWordChar(t[i]) && LowerChar(t[i]) == t[i]
    {
      assert t[i] == LowerChar(s[i]) && IsWordChar(s[i]);
    }
    assert ToLower(t) == t;
  }

  /** A name whose first word character is a digit is routed to the default schema. */
  lemma DigitLeadingSanitizesToDefault(s: string)
    requires KeepWordChars(s) != [] && IsAsciiDigit(KeepWordChars(s)[0])
    ensures Sanitize(s) == Default
  {
    SanitizeByWordChars(s);
  }

  /** `Acme_1` is lower-cased. */
  lemma SanitizeMixedCaseExample()
    ensures Sanitize("Acme_1") == "acme_1"
  {
    SanitizeByWordChars("Acme_1");
    AcmeWordChars();
    AcmeLowerCase();
  }

  /**
   * A path-traversal attempt, the text `../etc; DROP` (written in pieces),
   * keeps its letters: it becomes `etcdrop`, not the default.
   */
  lemma SanitizeTraversalExample()
    ensures Sanitize("../" + "etc" + "; " + "DROP") == "etcdrop"
  {
    SanitizeByWordChars("../" + "etc" + "; " + "DROP");
    TraversalWordChars();
    TraversalLowerCase();
  }

  /** Blank and digit-led inputs fall back to the default. */
  lemma SanitizeDefaultExamples()
    ensures Sanitize("  \t ") == Default
    ensures Sanitize("42") == Default
  {
    SanitizeByWordChars("  \t ");
    SanitizeByWordChars("42");
  }

  // Evaluation steps for the examples above, kept apart so that the solver
  // does not unfold the whole sanitiser on a literal.

  lemma AcmeWordChars()
    ensures KeepWordChars("Acme_1") == "Acme_1"
  {
  }

  lemma AcmeLowerCase()
    ensures FromWordChars("Acme_1") == "acme_1"
  {
  }

  lemma TraversalWordChars()
    ensures KeepWordChars("../" + "etc" + "; " + "DROP") == "etc" + "DROP"
  {
    KeepWordCharsAppend("../" + "etc" + "; ", "DROP");
    KeepWordCharsAppend("../" + "etc", "; ");
    KeepWordCharsAppend("../", "etc");
    DotsDropped();
    SemicolonDropped();
    KeepWordCharsOfWord("etc");
    KeepWordCharsOfWord("DROP");
  }

  lemma DotsDropped()
    ensures KeepWordChars("../") == []
  {
  }

  lemma SemicolonDropped()
    ensures KeepWordChars("; ") == []
  {
  }

  lemma TraversalLowerCase()
    ensures FromWordChars("etc" + "DROP") == "etcdrop"
  {
  }
}
