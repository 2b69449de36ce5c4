/** `createSlug` of src/routes/posts/create/+page.server.js: lower-case the
    title, delete every character that is neither a word character nor a
    space, then turn each run of spaces into one hyphen. */
module Slug {
  import Ascii

  /** The regular-expression class `\w`: ASCII letters, digits and `_`. */
  predicate IsWordChar(c: char) {
    'a' <= c <= 'z' || 'A' <= c <= 'Z' || '0' <= c <= '9' || c == '_'
  }

  /** The characters a slug may contain. */
  predicate IsSlugChar(c: char) {
    'a' <= c <= 'z' || '0' <= c <= '9' || c == '_' || c == '-'
  }

  /** The first replacement: deleting every run of characters outside
      `[\w ]` deletes each such character. */
  function StripNonWord(s: string): (t: string)
    ensures |t| <= |s|
    ensures forall i :: 0 <= i < |t| ==> IsWordChar(t[i]) || t[i] == ' '
  {
    if s == [] then []
    else (if IsWordChar(s[0]) || s[0] == ' ' then [s[0]] else []) + StripNonWord(s[1..])
  }

  /** Drops the run of spaces at the front. */
  function SkipSpaces(s: string): (t: string)
    ensures |t| <= |s|
    ensures s != [] && s[0] == ' ' ==> |t| < |s|
    ensures t == [] || t[0] != ' '
    ensures forall i :: 0 <= i < |t| ==> t[i] in s
  {
    if s != [] && s[0] == ' ' then SkipSpaces(s[1..]) else s
  }

  /** The second replacement: each maximal run of spaces becomes one hyphen. */
  function Hyphenate(s: string): (t: string)
    ensures |t| <= |s|
    decreases |s|
  {
    if s == [] then []
    else if s[0] == ' ' then "-" + Hyphenate(SkipSpaces(s))
    else [s[0]] + Hyphenate(s[1..])
  }

  /** Every slug character is a lower-case ASCII letter, a digit, `_` or `-`
      (no upper-case letter and no space survives), and a slug never holds two
      hyphens in a row, since the title's own hyphens are deleted before
      spaces turn into hyphens. */
  function CreateSlug(title: string): (slug: string)
    ensures forall i :: 0 <= i < |slug| ==> IsSlugChar(slug[i])
    ensures forall i :: 0 <= i < |slug| - 1 ==> !(slug[i] == '-' && slug[i + 1] == '-')
  {
    var lower := Ascii.Lower(title);
    var stripped := StripNonWord(lower);
    HyphenateChars(stripped);
    StripKeepsLower(lower);
    assert '-' !in stripped;
    HyphenateNoDoubleHyphen(stripped);
    Hyphenate(stripped)
  }

  /** `s` with every occurrence of `c` deleted. */
  function Without(s: string, c: char): (t: string)
    ensures c !in t
  {
    if s == [] then [] else (if s[0] == c then [] else [s[0]]) + Without(s[1..], c)
  }

  /** The word characters of `s`, in order. */
  function WordChars(s: string): (t: string) {
    if s == [] then [] else (if IsWordChar(s[0]) then [s[0]] else []) + WordChars(s[1..])
  }

  lemma WithoutAppend(a: string, b: string, c: char)
    ensures Without(a + b, c) == Without(a, c) + Without(b, c)
  {
    if a != [] {
      assert (a + b)[1..] == a[1..] + b;
      WithoutAppend(a[1..], b, c);
    } else {
      assert a + b == b;
    }
  }

  // ---------------------------------------------------------------------------
  // Hyphenate

  /** Hyphenate keeps every character but spaces, adds only hyphens, and a
      hyphen follows nothing but a non-space, non-hyphen character or the start. */
  lemma {:induction false} HyphenateChars(s: string)
    ensures forall i :: 0 <= i < |Hyphenate(s)| ==> Hyphenate(s)[i] == '-' || (Hyphenate(s)[i] in s && Hyphenate(s)[i] != ' ')
    decreases |s|
  {
    if s != [] {
      if s[0] == ' ' {
        HyphenateChars(SkipSpaces(s));
      } else {
        HyphenateChars(s[1..]);
      }
    }
  }

  /** Hyphenate leaves a first character that is not a space in place. */
  lemma HyphenateHead(s: string)
    requires s != [] && s[0] != ' '
    ensures Hyphenate(s) != [] && Hyphenate(s)[0] == s[0]
  {
  }

  /** With no hyphen in the input, the output never has two hyphens in a row. */
  lemma {:induction false} HyphenateNoDoubleHyphen(s: string)
    requires '-' !in s
    ensures forall i :: 0 <= i < |Hyphenate(s)| - 1 ==> !(Hyphenate(s)[i] == '-' && Hyphenate(s)[i + 1] == '-')
    decreases |s|
  {
    if s != [] {
      var t := Hyphenate(s);
      if s[0] == ' ' {
        var rest := SkipSpaces(s);
        assert '-' !in rest;
        HyphenateNoDoubleHyphen(rest);
        if rest != [] {
          HyphenateHead(rest);
        }
        assert t == "-" + Hyphenate(rest);
        forall i | 0 <= i < |t| - 1
          ensures !(t[i] == '-' && t[i + 1] == '-')
        {
          if i > 0 { assert t[i] == Hyphenate(rest)[i - 1] && t[i + 1] == Hyphenate(rest)[i]; }
        }
      } else {
        HyphenateNoDoubleHyphen(s[1..]);
        assert t == [s[0]] + Hyphenate(s[1..]);
        forall i | 0 <= i < |t| - 1
          ensures !(t[i] == '-' && t[i + 1] == '-')
        {
          if i > 0 { assert t[i] == Hyphenate(s[1..])[i - 1] && t[i + 1] == Hyphenate(s[1..])[i]; }
        }
      }
    }
  }

  /** With no hyphen in the input, deleting the hyphens from the output gives
      the input with its spaces deleted. */
  lemma {:induction false} HyphenateWithoutHyphens(s: string)
    requires '-' !in s
    ensures Without(Hyphenate(s), '-') == Without(s, ' ')
    decreases |s|
  {
    if s != [] {
      if s[0] == ' ' {
        SkipSpacesWithout(s);
        HyphenateWithoutHyphens(SkipSpaces(s));
        WithoutAppend("-", Hyphenate(SkipSpaces(s)), '-');
      } else {
        HyphenateWithoutHyphens(s[1..]);
        WithoutAppend([s[0]], Hyphenate(s[1..]), '-');
      }
    }
  }

  lemma {:induction false} SkipSpacesWithout(s: string)
    ensures Without(SkipSpaces(s), ' ') == Without(s, ' ')
  {
    if s != [] && s[0] == ' ' {
      SkipSpacesWithout(s[1..]);
    }
  }

  /** With no hyphen in the input, the output holds a hyphen exactly when the
      input holds a space. */
  lemma {:induction false} HyphenateHyphenIffSpace(s: string)
    requires '-' !in s
    ensures '-' in Hyphenate(s) <==> ' ' in s
    decreases |s|
  {
    if s != [] {
      if s[0] == ' ' {
        assert Hyphenate(s)[0] == '-';
      } else {
        HyphenateHyphenIffSpace(s[1..]);
        assert Hyphenate(s) == [s[0]] + Hyphenate(s[1..]);
        assert s == [s[0]] + s[1..];
      }
    }
  }

  /** A trailing space run ends the output in a hyphen. */
  lemma {:induction false} HyphenateLast(s: string)
    requires s != [] && s[|s| - 1] == ' '
    ensures Hyphenate(s) != [] && Hyphenate(s)[|Hyphenate(s)| - 1] == '-'
    decreases |s|
  {
    if s[0] == ' ' {
      var rest := SkipSpaces(s);
      if rest != [] {
        SkipSpacesSuffix(s);
        HyphenateLast(rest);
      }
    } else {
      HyphenateLast(s[1..]);
    }
  }

  /** SkipSpaces drops a prefix. */
  lemma {:induction false} SkipSpacesSuffix(s: string)
    ensures |SkipSpaces(s)| <= |s| && SkipSpaces(s) == s[|s| - |SkipSpaces(s)|..]
  {
    if s != [] && s[0] == ' ' {
      SkipSpacesSuffix(s[1..]);
    }
  }

  // ---------------------------------------------------------------------------
  // Properties of createSlug

  lemma {:induction false} WordCharsAsWithout(s: string)
    requires forall i :: 0 <= i < |s| ==> IsWordChar(s[i]) || s[i] == ' '
    ensures WordChars(s) == Without(s, ' ')
  {
    if s != [] {
      WordCharsAsWithout(s[1..]);
    }
  }

  lemma {:induction false} WordCharsOfStrip(s: string)
    ensures WordChars(StripNonWord(s)) == WordChars(s)
  {
    if s != [] {
      WordCharsOfStrip(s[1..]);
      var head := if IsWordChar(s[0]) || s[0] == ' ' then [s[0]] else [];
      assert StripNonWord(s) == head + StripNonWord(s[1..]);
      WordCharsAppend(head, StripNonWord(s[1..]));
    }
  }

  lemma {:induction false} WordCharsAppend(a: string, b: string)
    ensures WordChars(a + b) == WordChars(a) + WordChars(b)
  {
    if a != [] {
      assert (a + b)[1..] == a[1..] + b;
      WordCharsAppend(a[1..], b);
    } else {
      assert a + b == b;
    }
  }

  lemma {:induction false} StripKeepsLower(s: string)
    requires Ascii.IsLower(s)
    ensures Ascii.IsLower(StripNonWord(s))
  {
    if s != [] {
      StripKeepsLower(s[1..]);
      var head := if IsWordChar(s[0]) || s[0] == ' ' then [s[0]] else [];
      assert StripNonWord(s) == head + StripNonWord(s[1..]);
    }
  }

  /** Deleting the hyphens of a slug gives the word characters of the
      lower-cased title. */
  lemma SlugWithoutHyphens(title: string)
    ensures Without(CreateSlug(title), '-') == WordChars(Ascii.Lower(title))
  {
    var stripped := StripNonWord(Ascii.Lower(title));
    assert '-' !in stripped;
    HyphenateWithoutHyphens(stripped);
    WordCharsAsWithout(stripped);
    WordCharsOfStrip(Ascii.Lower(title));
  }

  /** Only the space turns into a hyphen: a slug holds a hyphen exactly when
      the title holds a space. Tabs, newlines and punctuation are deleted. */
  lemma SlugHyphenIffSpace(title: string)
    ensures '-' in CreateSlug(title) <==> ' ' in title
  {
    var lower := Ascii.Lower(title);
    var stripped := StripNonWord(lower);
    assert '-' !in stripped;
    HyphenateHyphenIffSpace(stripped);
    SpaceSurvivesStrip(lower);
    assert ' ' in title <==> ' ' in lower by {
      if ' ' in title {
        var i :| 0 <= i < |title| && title[i] == ' ';
        assert lower[i] == ' ';
      }
      if ' ' in lower {
        var i :| 0 <= i < |lower| && lower[i] == ' ';
        assert title[i] == ' ';
      }
    }
  }

  lemma {:induction false} SpaceSurvivesStrip(s: string)
    ensures ' ' in StripNonWord(s) <==> ' ' in s
  {
    if s != [] {
      SpaceSurvivesStrip(s[1..]);
      var head := if IsWordChar(s[0]) || s[0] == ' ' then [s[0]] else [];
      assert StripNonWord(s) == head + StripNonWord(s[1..]);
      assert s == [s[0]] + s[1..];
    }
  }

  /** A slug is never longer than its title, and nothing is trimmed: a title
      that starts or ends with a space gives a slug that starts or ends with a
      hyphen. */
  lemma SlugLengthAndEdges(title: string)
    ensures |CreateSlug(title)| <= |title|
    ensures title != [] && title[0] == ' ' ==> CreateSlug(title) != [] && CreateSlug(title)[0] == '-'
    ensures title != [] && title[|title| - 1] == ' ' ==>
              CreateSlug(title) != [] && CreateSlug(title)[|CreateSlug(title)| - 1] == '-'
  {
    var lower := Ascii.Lower(title);
    var stripped := StripNonWord(lower);
    if title != [] && title[0] == ' ' {
      assert stripped[0] == ' ';
    }
    if title != [] && title[|title| - 1] == ' ' {
      StripLast(lower);
      HyphenateLast(stripped);
    }
  }

  lemma {:induction false} StripLast(s: string)
    requires s != [] && s[|s| - 1] == ' '
    ensures StripNonWord(s) != [] && StripNonWord(s)[|StripNonWord(s)| - 1] == ' '
  {
    if |s| > 1 {
      StripLast(s[1..]);
      var head := if IsWordChar(s[0]) || s[0] == ' ' then [s[0]] else [];
      assert StripNonWord(s) == head + StripNonWord(s[1..]);
    }
  }
}
