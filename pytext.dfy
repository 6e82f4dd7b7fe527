/** The Python 2 `str` operations the command parser is built from, on ASCII text:
    `upper`, whitespace removal by `split()` and `join`, `split('/')`, `replace(c, "")`
    and base-10 `int()`, with `str(n)` as the inverse of `int()`. */
module PyText {

  datatype Option<T> = None | Some(value: T)

  /** The characters `str.split()` with no argument treats as whitespace. */
  predicate IsSpace(c: char)
  {
    c == ' ' || c == '\t' || c == '\n' || c == '\r' || c == '\U{B}' || c == '\U{C}'
  }

  predicate IsLower(c: char)
  {
    'a' <= c <= 'z'
  }

  predicate IsDigit(c: char)
  {
    '0' <= c <= '9'
  }

  /** `str.upper()` on one character. */
  function Upper(c: char): (u: char)
    ensures !IsLower(u)
    ensures IsLower(c) ==> u as int == c as int - 32
    ensures IsSpace(u) <==> IsSpace(c)
    ensures !IsLower(c) ==> u == c
  {
    if IsLower(c) then (c as int - 32) as char else c
  }

  /** Text in the form `''.join(s.upper().split())` leaves it: no whitespace, no lower-case letter. */
  predicate Compacted(s: string)
  {
    forall i :: 0 <= i < |s| ==> !IsSpace(s[i]) && !IsLower(s[i])
  }

  /** `''.join(s.upper().split())`: every letter upper-cased and every whitespace character dropped. */
  function Compact(s: string): (r: string)
    ensures Compacted(r)
    ensures |r| <= |s|
  {
    if s == [] then []
    else (if IsSpace(s[0]) then [] else [Upper(s[0])]) + Compact(s[1..])
  }

  /** A single character compacts to nothing when it is whitespace and to itself upper-cased otherwise. */
  lemma CompactChar(c: char)
    ensures Compact([c]) == if IsSpace(c) then [] else [Upper(c)]
  {
  }

  /** The compacted text of a concatenation is the concatenation of the compacted parts. With
      CompactChar this keeps every non-whitespace character, upper-cased, in order. */
  lemma {:induction false} CompactConcat(a: string, b: string)
    ensures Compact(a + b) == Compact(a) + Compact(b)
  {
    if a == [] {
      assert a + b == b;
    } else {
      assert (a + b)[1..] == a[1..] + b;
      CompactConcat(a[1..], b);
    }
  }

  lemma {:induction false} CompactFixes(s: string)
    requires Compacted(s)
    ensures Compact(s) == s
  {
    if s != [] {
      CompactFixes(s[1..]);
    }
  }

  /** Compacting twice is compacting once. */
  lemma CompactIdempotent(s: string)
    ensures Compact(Compact(s)) == Compact(s)
  {
    CompactFixes(Compact(s));
  }

  /** `s.split(sep)`: the pieces between the occurrences of `sep`, empty pieces included. */
  function Split(s: string, sep: char): (r: seq<string>)
    ensures |r| > 0
    ensures forall i :: 0 <= i < |r| ==> sep !in r[i]
  {
    if s == [] then [[]]
    else
      var rest := Split(s[1..], sep);
      if s[0] == sep then [[]] + rest
      else [[s[0]] + rest[0]] + rest[1..]
  }

  /** `sep.join(pieces)`. */
  function Join(pieces: seq<string>, sep: char): string
    requires |pieces| > 0
  {
    if |pieces| == 1 then pieces[0] else pieces[0] + [sep] + Join(pieces[1..], sep)
  }

  /** Joining the pieces of a split gives back the text. */
  lemma {:induction false} JoinSplit(s: string, sep: char)
    ensures Join(Split(s, sep), sep) == s
  {
    if s != [] {
      var rest := Split(s[1..], sep);
      JoinSplit(s[1..], sep);
      if s[0] != sep {
        var r := Split(s, sep);
        if |rest| == 1 {
          assert r == [[s[0]] + rest[0]];
        } else {
          assert r[1..] == rest[1..];
          assert Join(rest, sep) == rest[0] + [sep] + Join(rest[1..], sep);
          assert s == [s[0]] + s[1..];
        }
      }
    }
  }

  lemma {:induction false} SplitWithout(p: string, sep: char)
    requires sep !in p
    ensures Split(p, sep) == [p]
  {
    if p != [] {
      SplitWithout(p[1..], sep);
      assert [p[0]] + p[1..] == p;
    }
  }

  lemma {:induction false} SplitAfterPiece(p: string, sep: char, rest: string)
    requires sep !in p
    ensures Split(p + [sep] + rest, sep) == [p] + Split(rest, sep)
  {
    if p == [] {
      assert ([sep] + rest)[1..] == rest;
    } else {
      assert (p + [sep] + rest)[1..] == p[1..] + [sep] + rest;
      SplitAfterPiece(p[1..], sep, rest);
      assert [p[0]] + p[1..] == p;
    }
  }

  /** Splitting the join of pieces free of the separator gives back the pieces. */
  lemma {:induction false} SplitJoin(pieces: seq<string>, sep: char)
    requires |pieces| > 0
    requires forall i :: 0 <= i < |pieces| ==> sep !in pieces[i]
    ensures Split(Join(pieces, sep), sep) == pieces
  {
    if |pieces| == 1 {
      SplitWithout(pieces[0], sep);
    } else {
      SplitJoin(pieces[1..], sep);
      SplitAfterPiece(pieces[0], sep, Join(pieces[1..], sep));
      assert pieces == [pieces[0]] + pieces[1..];
    }
  }

  /** Some separator stands at the very end or right before another separator. */
  predicate SeparatorClosesEmptyPiece(s: string, sep: char)
  {
    exists i :: 0 <= i < |s| && s[i] == sep && (i == |s| - 1 || s[i + 1] == sep)
  }

  lemma {:induction false} EmptyLaterPiece(s: string, sep: char)
    ensures [] in Split(s, sep)[1..] <==> SeparatorClosesEmptyPiece(s, sep)
  {
    if s != [] {
      var t := s[1..];
      var rest := Split(t, sep);
      EmptyLaterPiece(t, sep);
      if SeparatorClosesEmptyPiece(t, sep) {
        var i :| 0 <= i < |t| && t[i] == sep && (i == |t| - 1 || t[i + 1] == sep);
        assert s[i + 1] == sep && (i + 1 == |s| - 1 || s[i + 2] == sep);
      }
      if SeparatorClosesEmptyPiece(s, sep) {
        var i :| 0 <= i < |s| && s[i] == sep && (i == |s| - 1 || s[i + 1] == sep);
        if i > 0 {
          assert t[i - 1] == sep && (i - 1 == |t| - 1 || t[i] == sep);
        }
      }
      if s[0] == sep {
        assert Split(s, sep)[1..] == rest;
        assert [] in rest <==> rest[0] == [] || [] in rest[1..];
        if t != [] {
          assert rest[0] == [] <==> t[0] == sep by {
            if t[0] != sep { assert rest[0] == [t[0]] + Split(t[1..], sep)[0]; }
          }
        }
      } else {
        assert Split(s, sep)[1..] == rest[1..];
      }
    }
  }

  /** The text is empty, or a separator leads, trails or is doubled. */
  predicate HasEmptyPiece(s: string, sep: char)
  {
    s == [] || s[0] == sep || s[|s| - 1] == sep
    || exists i :: 0 <= i < |s| - 1 && s[i] == sep && s[i + 1] == sep
  }

  /** `s.split(sep)` holds an empty piece exactly when a separator leads, trails or is doubled,
      or the text is empty. */
  lemma EmptyPieceIff(s: string, sep: char)
    ensures [] in Split(s, sep) <==> HasEmptyPiece(s, sep)
  {
    var r := Split(s, sep);
    EmptyLaterPiece(s, sep);
    assert [] in r <==> r[0] == [] || [] in r[1..];
    if s != [] {
      assert r[0] == [] <==> s[0] == sep by {
        if s[0] != sep { assert r[0] == [s[0]] + Split(s[1..], sep)[0]; }
      }
      if SeparatorClosesEmptyPiece(s, sep) {
        var i :| 0 <= i < |s| && s[i] == sep && (i == |s| - 1 || s[i + 1] == sep);
        assert i == |s| - 1 || (0 <= i < |s| - 1 && s[i] == sep && s[i + 1] == sep);
      }
    }
  }

  /** `s.replace(ch, "")`. */
  function Without(s: string, ch: char): (r: string)
    ensures ch !in r
    ensures forall c :: c != ch ==> (c in r <==> c in s)
    ensures ch !in s ==> r == s
  {
    if s == [] then []
    else (if s[0] == ch then [] else [s[0]]) + Without(s[1..], ch)
  }

  lemma {:induction false} WithoutConcat(a: string, b: string, ch: char)
    ensures Without(a + b, ch) == Without(a, ch) + Without(b, ch)
  {
    if a == [] {
      assert a + b == b;
    } else {
      assert (a + b)[1..] == a[1..] + b;
      WithoutConcat(a[1..], b, ch);
    }
  }

  predicate AllDigits(s: string)
  {
    forall i :: 0 <= i < |s| ==> IsDigit(s[i])
  }

  /** The value of a string of decimal digits, most significant first. */
  function DigitsValue(s: string): nat
    requires AllDigits(s)
  {
    if s == [] then 0 else DigitsValue(s[..|s| - 1]) * 10 + (s[|s| - 1] as int - '0' as int)
  }

  /** The text base-10 `int()` of Python 2 accepts when it holds no whitespace: an optional
      sign followed by one or more decimal digits. */
  predicate IntText(s: string)
  {
    |s| > 0 && (AllDigits(s) || ((s[0] == '+' || s[0] == '-') && |s| > 1 && AllDigits(s[1..])))
  }

  /** Base-10 `int(s)` of Python 2 for text without whitespace: an optional sign and at least
      one decimal digit; `None` is the `ValueError` it raises on anything else. */
  function ParseInt(s: string): (r: Option<int>)
    ensures r.Some? ==> |s| > 0 && forall i :: 0 <= i < |s| ==> IsDigit(s[i]) || (i == 0 && (s[0] == '+' || s[0] == '-'))
    ensures r.Some? && s[0] != '-' ==> r.value >= 0
  {
    if |s| > 0 && (s[0] == '+' || s[0] == '-') then
      var digits := s[1..];
      if |digits| > 0 && AllDigits(digits) then
        Some(if s[0] == '-' then -(DigitsValue(digits) as int) else DigitsValue(digits))
      else None
    else if |s| > 0 && AllDigits(s) then Some(DigitsValue(s))
    else None
  }

  /** `int()` accepts exactly an optional sign followed by one or more digits. */
  lemma ParseIntAccepts(s: string)
    ensures ParseInt(s).Some? <==> IntText(s)
  {
  }

  /** What `int()` gives for each accepted form: the digits' decimal value, unchanged by a
      leading `+` and negated by a leading `-`. */
  lemma ParseIntValue(digits: string)
    requires |digits| > 0 && AllDigits(digits)
    ensures ParseInt(digits) == Some(DigitsValue(digits))
    ensures ParseInt("+" + digits) == Some(DigitsValue(digits))
    ensures ParseInt("-" + digits) == Some(-(DigitsValue(digits) as int))
  {
    var plus, minus := "+" + digits, "-" + digits;
    assert plus[0] == '+' && plus[1..] == digits;
    assert minus[0] == '-' && minus[1..] == digits;
  }

  /** `str(n)` for a natural number. */
  function NatToString(n: nat): (s: string)
    ensures |s| > 0 && AllDigits(s)
  {
    if n < 10 then [('0' as int + n) as char]
    else NatToString(n / 10) + [('0' as int + n % 10) as char]
  }

  /** `str(n)`. */
  function IntToString(n: int): (s: string)
    ensures |s| > 0
    ensures forall i :: 0 <= i < |s| ==> IsDigit(s[i]) || (i == 0 && s[0] == '-')
  {
    if n < 0 then "-" + NatToString(-n) else NatToString(n)
  }

  lemma {:induction false} DigitsValueOfNatToString(n: nat)
    ensures DigitsValue(NatToString(n)) == n
  {
    if n >= 10 {
      var s := NatToString(n);
      DigitsValueOfNatToString(n / 10);
      assert s[..|s| - 1] == NatToString(n / 10);
    }
  }

  /** `int(str(n)) == n`. */
  lemma ParseIntOfIntToString(n: int)
    ensures ParseInt(IntToString(n)) == Some(n)
  {
    if n < 0 {
      DigitsValueOfNatToString(-n);
      assert IntToString(n)[1..] == NatToString(-n);
    } else {
      DigitsValueOfNatToString(n);
    }
  }
}
