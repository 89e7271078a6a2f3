/** Cutting and joining texts. */
module Text {
  /** Texts that agree and are cut at the same place agree on both sides of the cut. */
  lemma Cut(p: string, q: string, x: string, y: string)
    requires p + x == q + y && |p| == |q|
    ensures p == q && x == y
  {
    assert p == (p + x)[..|p|] && q == (q + y)[..|q|];
    assert x == (p + x)[|p|..] && y == (q + y)[|q|..];
  }

  lemma Regroup(p: string, q: string, x: string)
    ensures p + q + x == p + (q + x)
  {
  }

  lemma Regroup3(p: string, q: string, r: string, x: string)
    ensures p + q + r + x == p + (q + (r + x))
  {
    Regroup(p + q, r, x);
    Regroup(p, q, r + x);
  }

  predicate HasPrefix(s: string, p: string) {
    |p| <= |s| && s[..|p|] == p
  }

  // ---- Line ends -------------------------------------------------------------------------------

  /** How many characters of the text are read as the first one. */
  function Unit(text: string): (n: nat)
    requires text != ""
    ensures 0 < n <= |text|
  {
    if text[0] == '\r' && |text| > 1 && text[1] == '\n' then 2 else 1
  }

  /** What is read of a text in text mode: a carriage return, with or without a newline after it, is a newline. */
  function Universal(text: string): string
    decreases |text|
  {
    if text == "" then ""
    else [if text[0] == '\r' then '\n' else text[0]] + Universal(text[Unit(text)..])
  }

  /** The text with every newline written as a carriage return and a newline. */
  function WithReturns(text: string): string {
    if text == "" then ""
    else (if text[0] == '\n' then "\r\n" else [text[0]]) + WithReturns(text[1..])
  }

  lemma {:induction false} UniversalPlain(text: string)
    requires '\r' !in text
    ensures Universal(text) == text
  {
    if text != "" {
      UniversalPlain(text[1..]);
      assert text == [text[0]] + text[1..];
    }
  }

  /** Written with carriage returns a text is read as itself. */
  lemma {:induction false} ReturnsRead(text: string)
    requires '\r' !in text
    ensures Universal(WithReturns(text)) == text && |WithReturns(text)| <= 2 * |text|
    ensures '\n' in text ==> '\r' in WithReturns(text)
  {
    if text != "" {
      ReturnsRead(text[1..]);
      assert text == [text[0]] + text[1..];
      var rest, written := WithReturns(text[1..]), WithReturns(text);
      if text[0] == '\n' {
        assert written == "\r\n" + rest && Unit(written) == 2 && written[2..] == rest;
      } else {
        assert written == [text[0]] + rest && written[1..] == rest;
      }
    }
  }

  /** What is read in text mode holds no carriage return, and a newline for every one that no newline follows. */
  lemma {:induction false} UniversalReads(text: string)
    ensures '\r' !in Universal(text) && ('\n' in Universal(text) <==> '\r' in text || '\n' in text)
    decreases |text|
  {
    if text != "" {
      var n := Unit(text);
      UniversalReads(text[n..]);
      assert text == text[..n] + text[n..];
      assert text[..n] == [text[0]] || text[..n] == "\r\n";
    }
  }

  /** Two texts are read like their concatenation, unless a carriage return and its newline are parted. */
  lemma {:induction false} UniversalAppend(a: string, b: string)
    requires b != "" && b[0] != '\n'
    ensures Universal(a + b) == Universal(a) + Universal(b)
    decreases |a|
  {
    if a == "" {
      assert a + b == b;
    } else {
      var n := Unit(a);
      assert (a + b)[n..] == a[n..] + b && Unit(a + b) == n;
      hide Unit;
      UniversalAppend(a[n..], b);
    }
  }

  // ---- Splitting and joining -------------------------------------------------------------------

  /** `text.split(sep)`. */
  function Split(text: string, sep: char := '/'): (parts: seq<string>)
    ensures parts != []
  {
    if text == "" then [""]
    else
      var rest := Split(text[1..], sep);
      if text[0] == sep then [""] + rest else [[text[0]] + rest[0]] + rest[1..]
  }

  function Join(parts: seq<string>, sep: char := '/'): string {
    if parts == [] then "" else if |parts| == 1 then parts[0] else parts[0] + [sep] + Join(parts[1..], sep)
  }

  lemma JoinCons(part: string, rest: seq<string>, sep: char := '/')
    requires rest != []
    ensures Join([part] + rest, sep) == part + [sep] + Join(rest, sep)
  {
    assert ([part] + rest)[1..] == rest;
  }

  lemma JoinFirst(c: char, rest: seq<string>, sep: char := '/')
    requires rest != []
    ensures Join([[c] + rest[0]] + rest[1..], sep) == [c] + Join(rest, sep)
  {
    var parts := [[c] + rest[0]] + rest[1..];
    if |rest| > 1 {
      assert parts[1..] == rest[1..];
      Regroup([c], rest[0] + [sep], Join(rest[1..], sep));
      Regroup([c], rest[0], [sep]);
    }
  }

  /** Splitting cuts at every separator and nowhere else. */
  lemma {:induction false} SplitJoin(text: string, sep: char := '/')
    ensures Join(Split(text, sep), sep) == text && forall part | part in Split(text, sep) :: sep !in part
  {
    if text != "" {
      SplitJoin(text[1..], sep);
      var rest := Split(text[1..], sep);
      assert text == [text[0]] + text[1..];
      if text[0] == sep {
        JoinCons("", rest, sep);
        assert text == [sep] + text[1..];
      } else {
        JoinFirst(text[0], rest, sep);
      }
    }
  }

  /** Splitting drops the separators and nothing else. */
  lemma {:induction false} SplitKeeps(text: string, c: char, sep: char := '/')
    requires c != sep
    ensures c in text <==> exists part | part in Split(text, sep) :: c in part
  {
    if text != "" {
      SplitKeeps(text[1..], c, sep);
      var rest, parts := Split(text[1..], sep), Split(text, sep);
      assert c in text <==> c == text[0] || c in text[1..];
      if text[0] == sep {
        assert parts == [""] + rest;
      } else {
        assert parts == [[text[0]] + rest[0]] + rest[1..] && rest == [rest[0]] + rest[1..];
        assert c in parts[0] <==> c == text[0] || c in rest[0];
      }
    }
  }

  /** Joining parts that contain no separator loses nothing. */
  lemma {:induction false} JoinSplit(parts: seq<string>, sep: char := '/')
    requires parts != [] && forall part | part in parts :: sep !in part
    ensures Split(Join(parts, sep), sep) == parts
    decreases |parts|
  {
    if |parts| == 1 {
      SplitPart(parts[0], sep);
    } else {
      JoinSplit(parts[1..], sep);
      SplitPrefix(parts[0], Join(parts[1..], sep), sep);
    }
  }

  lemma {:induction false} SplitPart(part: string, sep: char)
    requires sep !in part
    ensures Split(part, sep) == [part]
  {
    if part != "" {
      SplitPart(part[1..], sep);
      assert part == [part[0]] + part[1..];
    }
  }

  lemma {:induction false} SplitPrefix(part: string, rest: string, sep: char)
    requires sep !in part
    ensures Split(part + [sep] + rest, sep) == [part] + Split(rest, sep)
  {
    if part == "" {
      assert "" + [sep] + rest == [sep] + rest && ([sep] + rest)[1..] == rest;
    } else {
      SplitPrefix(part[1..], rest, sep);
      assert (part + [sep] + rest)[1..] == part[1..] + [sep] + rest;
      assert part == [part[0]] + part[1..];
    }
  }
}
