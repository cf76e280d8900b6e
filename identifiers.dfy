/**
 * Goify: the identifier sanitizer. It keeps the letters and digits of a name,
 * treats '_' as a camel-case boundary, forces the case of the first character,
 * special-cases "ok" and "id", falls back to "_v" and escapes reserved words.
 * Go walks the name byte by byte; the model takes ASCII names, for which
 * characters and bytes coincide.
 */
module Identifiers {
  import opened Design
  import opened Writer

  predicate IsLetter(c: char)
  {
    'a' <= c <= 'z' || 'A' <= c <= 'Z'
  }

  predicate IsDigit(c: char)
  {
    '0' <= c <= '9'
  }

  /** A character Goify keeps. */
  predicate IsAlnum(c: char)
  {
    IsLetter(c) || IsDigit(c)
  }

  /** A character that may appear in a Go identifier. */
  predicate IsIdentChar(c: char)
  {
    IsAlnum(c) || c == '_'
  }

  function ToUpper(c: char): char
  {
    if 'a' <= c <= 'z' then (c as int - 32) as char else c
  }

  function ToLower(c: char): char
  {
    if 'A' <= c <= 'Z' then (c as int + 32) as char else c
  }

  /** The case of the first kept character: upper when firstUpper, lower otherwise. */
  function FirstCase(c: char, firstUpper: bool): char
  {
    if firstUpper then ToUpper(c) else ToLower(c)
  }

  /** The reserved Go words and predeclared type names that Goify escapes. */
  const Reserved: set<string> := {
    "byte", "complex128", "complex64", "float32", "float64", "int", "int16", "int32",
    "int64", "int8", "rune", "string", "uint16", "uint32", "uint64", "uint8",
    "break", "case", "chan", "const", "continue", "default", "defer", "else",
    "fallthrough", "for", "func", "go", "goto", "if", "import", "interface",
    "map", "package", "range", "return", "select", "struct", "switch", "type", "var"
  }

  lemma ReservedHaveNoUnderscore()
    ensures forall w :: w in Reserved ==> '_' !in w
  {
  }

  /** The letters and digits of s, in order: what Goify keeps, before case changes. */
  function Kept(s: string): string
    decreases |s|
  {
    if s == [] then []
    else Kept(s[..|s| - 1]) + (if IsAlnum(s[|s| - 1]) then [s[|s| - 1]] else [])
  }

  /** The state of Goify's loop: the text written and its two flags. */
  datatype ScanState = ScanState(buf: string, firstWritten: bool, nextUpper: bool)

  /** One iteration of Goify's loop on character c. */
  function Step(st: ScanState, c: char, firstUpper: bool): ScanState
  {
    if c == '_' then st.(nextUpper := true)
    else if IsAlnum(c) then
      if !st.firstWritten then ScanState(st.buf + [FirstCase(c, firstUpper)], true, false)
      else if st.nextUpper then ScanState(st.buf + [ToUpper(c)], true, false)
      else st.(buf := st.buf + [c])
    else st
  }

  /** The loop state after the characters of s. */
  function Scan(s: string, firstUpper: bool): ScanState
    decreases |s|
  {
    if s == [] then ScanState([], false, false)
    else Step(Scan(s[..|s| - 1], firstUpper), s[|s| - 1], firstUpper)
  }

  /** The camel-cased text Goify's loop writes for s. */
  function CamelBody(s: string, firstUpper: bool): string
  {
    Scan(s, firstUpper).buf
  }

  /** Goify's result, as a function of its inputs. */
  function Goified(str: string, firstUpper: bool): (r: string)
    requires IsAscii(str)
    ensures str == "ok" && firstUpper ==> r == "OK"
    ensures str == "id" && firstUpper ==> r == "ID"
    ensures Kept(str) == [] ==> r == "_v"
    ensures |r| > 0
    ensures forall i :: 0 <= i < |r| ==> IsIdentChar(r[i])
  {
    if str == "ok" && firstUpper then "OK"
    else if str == "id" && firstUpper then "ID"
    else
      ScanInvariant(str, firstUpper);
      Escaped(CamelBody(str, firstUpper))
  }

  /** The end of Goify: "_v" for empty text, a trailing '_' after a reserved word. */
  function Escaped(body: string): (r: string)
    requires forall i :: 0 <= i < |body| ==> IsAlnum(body[i])
    ensures body == [] ==> r == "_v"
    ensures |r| > 0
    ensures forall i :: 0 <= i < |r| ==> IsIdentChar(r[i])
  {
    if |body| == 0 then "_v"
    else if body in Reserved then body + "_"
    else body
  }

  /** Goify never returns a reserved word. */
  lemma NeverReserved(str: string, firstUpper: bool)
    requires IsAscii(str)
    ensures Goified(str, firstUpper) !in Reserved
  {
    if !(str == "ok" && firstUpper) && !(str == "id" && firstUpper) {
      var body := CamelBody(str, firstUpper);
      ScanInvariant(str, firstUpper);
      if |body| > 0 && body in Reserved {
        ReservedHaveNoUnderscore();
        assert '_' in body + "_";
      }
    }
  }

  /** Goify: the loop over the bytes of str with the flags firstWritten and nextUpper. */
  method Goify(str: string, firstUpper: bool) returns (res: string)
    requires IsAscii(str)
    ensures res == Goified(str, firstUpper)
  {
    if str == "ok" && firstUpper {
      return "OK";
    } else if str == "id" && firstUpper {
      return "ID";
    }
    var b := new Buffer();
    var firstWritten, nextUpper := false, false;
    var i := 0;
    while i < |str|
      invariant 0 <= i <= |str|
      invariant ScanState(b.contents, firstWritten, nextUpper) == Scan(str[..i], firstUpper)
    {
      assert str[..i + 1][..i] == str[..i];
      var r := str[i];
      if r == '_' {
        nextUpper := true;
      } else if IsLetter(r) || IsDigit(r) {
        if !firstWritten {
          if firstUpper {
            r := ToUpper(r);
          } else {
            r := ToLower(r);
          }
          firstWritten := true;
          nextUpper := false;
        } else if nextUpper {
          r := ToUpper(r);
          nextUpper := false;
        }
        b.WriteString([r]);
      }
      i := i + 1;
    }
    assert str[..|str|] == str;
    if |b.contents| == 0 {
      return "_v";
    }
    res := b.contents;
    if res in Reserved {
      res := res + "_";
    }
  }

  /** Facts Goify's loop maintains, by induction over the characters read. */
  lemma {:induction false} ScanInvariant(s: string, firstUpper: bool)
    ensures |Scan(s, firstUpper).buf| == |Kept(s)|
    ensures Scan(s, firstUpper).firstWritten <==> Kept(s) != []
    ensures forall j :: 0 <= j < |Kept(s)| ==> ToLower(Scan(s, firstUpper).buf[j]) == ToLower(Kept(s)[j])
    ensures forall j :: 0 <= j < |Kept(s)| ==> IsAlnum(Scan(s, firstUpper).buf[j])
    ensures Kept(s) != [] ==> Scan(s, firstUpper).buf[0] == FirstCase(Kept(s)[0], firstUpper)
    decreases |s|
  {
    if s != [] {
      ScanInvariant(s[..|s| - 1], firstUpper);
    }
  }

  /**
   * Letters and digits are kept in input order and every other character is
   * dropped: the loop's text is Kept(s) up to the case of each character.
   */
  lemma KeepsLettersAndDigits(s: string, firstUpper: bool)
    ensures |CamelBody(s, firstUpper)| == |Kept(s)|
    ensures forall j :: 0 <= j < |Kept(s)| ==> ToLower(CamelBody(s, firstUpper)[j]) == ToLower(Kept(s)[j])
  {
    ScanInvariant(s, firstUpper);
  }

  /** The first kept character takes the case firstUpper asks for, even right after '_'. */
  lemma FirstKeptCase(s: string, firstUpper: bool)
    requires Kept(s) != []
    ensures |CamelBody(s, firstUpper)| > 0
    ensures CamelBody(s, firstUpper)[0] == FirstCase(Kept(s)[0], firstUpper)
  {
    ScanInvariant(s, firstUpper);
  }

  /** Appending characters only extends the text written so far. */
  lemma {:induction false} ScanExtends(s: string, t: string, firstUpper: bool)
    ensures Scan(s, firstUpper).buf <= Scan(s + t, firstUpper).buf
    decreases |t|
  {
    if t == [] {
      assert s + t == s;
    } else {
      var t' := t[..|t| - 1];
      assert (s + t)[..|s + t| - 1] == s + t';
      ScanExtends(s, t', firstUpper);
    }
  }

  /** Characters that Goify drops write nothing; an '_' among them sets nextUpper. */
  lemma {:induction false} ScanDropped(s: string, t: string, firstUpper: bool)
    requires Kept(t) == []
    ensures Scan(s + t, firstUpper).buf == Scan(s, firstUpper).buf
    ensures Scan(s + t, firstUpper).firstWritten == Scan(s, firstUpper).firstWritten
    ensures Scan(s + t, firstUpper).nextUpper == (Scan(s, firstUpper).nextUpper || '_' in t)
    decreases |t|
  {
    if t == [] {
      assert s + t == s;
    } else {
      var t' := t[..|t| - 1];
      assert (s + t)[..|s + t| - 1] == s + t';
      assert (s + t)[|s + t| - 1] == t[|t| - 1];
      assert Kept(t') == [] && !IsAlnum(t[|t| - 1]);
      assert t == t' + [t[|t| - 1]];
      ScanDropped(s, t', firstUpper);
    }
  }

  /**
   * Once the first character is written and no '_' is pending, letters and
   * digits are copied as they are.
   */
  lemma {:induction false} ScanCopies(s: string, t: string, firstUpper: bool)
    requires Scan(s, firstUpper).firstWritten && !Scan(s, firstUpper).nextUpper
    requires forall i :: 0 <= i < |t| ==> IsAlnum(t[i])
    ensures Scan(s + t, firstUpper) == ScanState(Scan(s, firstUpper).buf + t, true, false)
    decreases |t|
  {
    if t == [] {
      assert s + t == s;
    } else {
      var t' := t[..|t| - 1];
      var c := t[|t| - 1];
      assert (s + t)[..|s + t| - 1] == s + t';
      assert (s + t)[|s + t| - 1] == c;
      ScanCopies(s, t', firstUpper);
      assert Scan(s, firstUpper).buf + t' + [c] == Scan(s, firstUpper).buf + t;
    }
  }

  /** Scan and Kept of a string with one more character. */
  lemma ScanSnoc(s: string, c: char, firstUpper: bool)
    ensures Scan(s + [c], firstUpper) == Step(Scan(s, firstUpper), c, firstUpper)
    ensures Kept(s + [c]) == Kept(s) + (if IsAlnum(c) then [c] else [])
  {
    assert (s + [c])[..|s|] == s;
  }

  /**
   * '_' marks a camel boundary: after some kept text p, the first kept
   * character c that follows an '_' is upper-cased, whatever dropped
   * characters q1 lie between them.
   */
  lemma UnderscoreBoundary(p: string, q1: string, c: char, q2: string, firstUpper: bool)
    requires Kept(p) != [] && Kept(q1) == [] && IsAlnum(c)
    ensures |Kept(p)| < |CamelBody(p + "_" + q1 + [c] + q2, firstUpper)|
    ensures CamelBody(p + "_" + q1 + [c] + q2, firstUpper)[|Kept(p)|] == ToUpper(c)
  {
    ScanInvariant(p, firstUpper);
    ScanSnoc(p, '_', firstUpper);
    ScanDropped(p + "_", q1, firstUpper);
    ScanSnoc(p + "_" + q1, c, firstUpper);
    ScanExtends(p + "_" + q1 + [c], q2, firstUpper);
  }

  /**
   * Only '_' marks a boundary: a kept character c that follows kept character d
   * with no '_' between them (other dropped characters q1 allowed) is written as is.
   */
  lemma NoBoundaryWithoutUnderscore(p: string, d: char, q1: string, c: char, q2: string, firstUpper: bool)
    requires IsAlnum(d) && Kept(q1) == [] && '_' !in q1 && IsAlnum(c)
    ensures |Kept(p)| + 1 < |CamelBody(p + [d] + q1 + [c] + q2, firstUpper)|
    ensures CamelBody(p + [d] + q1 + [c] + q2, firstUpper)[|Kept(p)| + 1] == c
  {
    ScanInvariant(p, firstUpper);
    ScanSnoc(p, d, firstUpper);
    ScanInvariant(p + [d], firstUpper);
    ScanDropped(p + [d], q1, firstUpper);
    ScanSnoc(p + [d] + q1, c, firstUpper);
    ScanExtends(p + [d] + q1 + [c], q2, firstUpper);
  }

  /**
   * A result equal to a reserved word gets a trailing '_'; otherwise the
   * camel-cased text is returned unchanged.
   */
  lemma EscapesReserved(str: string, firstUpper: bool)
    requires IsAscii(str)
    requires !(str == "ok" && firstUpper) && !(str == "id" && firstUpper) && Kept(str) != []
    ensures CamelBody(str, firstUpper) in Reserved ==> Goified(str, firstUpper) == CamelBody(str, firstUpper) + "_"
    ensures CamelBody(str, firstUpper) !in Reserved ==> Goified(str, firstUpper) == CamelBody(str, firstUpper)
  {
    ScanInvariant(str, firstUpper);
  }

  /** The scan of "user": every letter kept, the first one upper-cased. */
  lemma ScanUser()
    ensures Scan("user", true) == ScanState("User", true, false)
  {
    assert Scan("u", true) == ScanState("U", true, false);
    ScanCopies("u", "ser", true);
    assert "u" + "ser" == "user";
  }

  /** The scan of "user_name": the '_' upper-cases the 'n' after it. */
  lemma ScanUserName()
    ensures Scan("user_name", true) == ScanState("UserName", true, false)
  {
    ScanUser();
    assert Scan("user_", true) == ScanState("User", true, true) by {
      ScanSnoc("user", '_', true);
      assert "user" + ['_'] == "user_";
    }
    assert Scan("user_n", true) == ScanState("UserN", true, false) by {
      ScanSnoc("user_", 'n', true);
      assert "user_" + ['n'] == "user_n";
    }
    ScanCopies("user_n", "ame", true);
    assert "user_n" + "ame" == "user_name";
  }

  /** '_' is a camel boundary: "user_name" becomes "UserName". */
  lemma UserNameExample()
    ensures Goified("user_name", true) == "UserName"
  {
    ScanUserName();
    assert "UserName" !in Reserved;
    assert "user_name" != "ok" && "user_name" != "id";
  }

  /** The scan of "user-name": the '-' is dropped and leaves the case alone. */
  lemma ScanUserHyphenName()
    ensures Scan("user-name", true) == ScanState("Username", true, false)
  {
    ScanUser();
    assert Scan("user-", true) == ScanState("User", true, false) by {
      ScanSnoc("user", '-', true);
      assert "user" + ['-'] == "user-";
    }
    ScanCopies("user-", "name", true);
    assert "user-" + "name" == "user-name";
  }

  /** '-' is dropped but is not a boundary: "user-name" becomes "Username". */
  lemma UserHyphenNameExample()
    ensures Goified("user-name", true) == "Username"
  {
    ScanUserHyphenName();
    assert "Username" !in Reserved;
    assert "user-name" != "ok" && "user-name" != "id";
  }

  /** The scan of "_user": the 'u' after the leading '_' is written lower-case. */
  lemma ScanUnderscoreUser()
    ensures CamelBody("_user", false) == "user"
  {
    assert Scan("_", false) == ScanState([], false, true);
    assert Scan("_u", false) == ScanState("u", true, false) by {
      ScanSnoc("_", 'u', false);
      assert "_" + ['u'] == "_u";
    }
    ScanCopies("_u", "ser", false);
    assert "_u" + "ser" == "_user" && "u" + "ser" == "user";
  }

  /** The first kept character follows firstUpper even right after '_'. */
  lemma UnderscoreFirstExample()
    ensures Goified("_user", false) == "user"
  {
    ScanUnderscoreUser();
    assert "user" !in Reserved;
  }

  /** The scans of "type": the letters copied, the first one in the case asked for. */
  lemma ScanType()
    ensures CamelBody("type", false) == "type"
    ensures CamelBody("type", true) == "Type"
  {
    assert Scan("t", false) == ScanState("t", true, false);
    ScanCopies("t", "ype", false);
    assert Scan("t", true) == ScanState("T", true, false);
    ScanCopies("t", "ype", true);
    assert "t" + "ype" == "type" && "T" + "ype" == "Type";
  }

  /** A reserved word is escaped with a trailing '_'. */
  lemma ReservedLowerExample()
    ensures Goified("type", false) == "type_"
  {
    ScanType();
    assert "type" in Reserved;
  }

  /** Upper-casing the first letter already avoids the reserved word. */
  lemma ReservedUpperExample()
    ensures Goified("type", true) == "Type"
  {
    ScanType();
    assert "Type" !in Reserved;
    assert "type" != "ok" && "type" != "id";
  }

  /** A name with no letter or digit falls back to "_v". */
  lemma FallbackExample()
    ensures Goified("_-_", true) == "_v"
  {
    assert CamelBody("_-_", true) == [] by {
      assert Scan("_", true) == ScanState([], false, true);
      assert Scan("_-", true) == ScanState([], false, true) by {
        ScanSnoc("_", '-', true);
        assert "_" + ['-'] == "_-";
      }
      assert Scan("_-_", true) == ScanState([], false, true) by {
        ScanSnoc("_-", '_', true);
        assert "_-" + ['_'] == "_-_";
      }
    }
    assert "_-_" != "ok" && "_-_" != "id";
  }

  /**
   * A leading digit is kept as it is: Goify does not force a letter or '_' at
   * the front, so "1st" yields an identifier that starts with a digit.
   */
  lemma LeadingDigitExample()
    ensures Goified("1st", true) == "1st"
  {
    ScanLeadingDigit();
    assert "1st" !in Reserved;
    assert "1st" != "ok" && "1st" != "id";
  }

  /** The scan of "1st": the digit is written first, the letters after it copied. */
  lemma ScanLeadingDigit()
    ensures CamelBody("1st", true) == "1st"
  {
    assert Scan("1", true) == ScanState("1", true, false);
    ScanCopies("1", "st", true);
    assert "1" + "st" == "1st";
  }
}
