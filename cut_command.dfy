/** The cut command language of `Laminate.parseCmd`: text such as `45/60A/45D` names one cut
    angle per generation, in whole degrees, each optionally marked `A` (ascending) or
    `D` (descending). This module states what a command parses to; the class in module
    `Laminate` builds that plan step by step. */
module CutCommand {
  import opened MathLib
  import opened PyText

  /** The placement tag stored under "location". */
  datatype Location = Any | Ascending | Descending

  /** The `cutCmd` dictionary: three parallel lists under the keys "angle", "location" and "height". */
  datatype CutCmd = CutCmd(angle: seq<real>, location: seq<Location>, height: seq<real>)

  /** What `setEmptyCmd` installs, and what every rejected command leaves behind. */
  const Empty: CutCmd := CutCmd([], [], [])

  /** The value a height holds until the backward pass fills it, and every failed computation's result. */
  const Sentinel: real := -1.0

  /** `''.join(cmd.upper().split()).split('/')`. */
  function Tokens(cmd: string): (toks: seq<string>)
    ensures |toks| > 0
    ensures forall i :: 0 <= i < |toks| ==> '/' !in toks[i] && Compacted(toks[i])
    ensures Join(toks, '/') == Compact(cmd)
  {
    var text := Compact(cmd);
    var toks := Split(text, '/');
    JoinSplit(text, '/');
    forall i | 0 <= i < |toks|
      ensures Compacted(toks[i])
    {
      PiecesCompacted(text, '/', i);
    }
    toks
  }

  lemma {:induction false} PiecesCompacted(s: string, sep: char, i: nat)
    requires Compacted(s)
    requires i < |Split(s, sep)|
    ensures Compacted(Split(s, sep)[i])
  {
    if s != [] {
      var rest := Split(s[1..], sep);
      if s[0] == sep {
        if i > 0 { PiecesCompacted(s[1..], sep, i - 1); }
      } else if i == 0 {
        PiecesCompacted(s[1..], sep, 0);
      } else {
        PiecesCompacted(s[1..], sep, i);
      }
    }
  }

  /** `c.replace("D", "").replace("A", "")`: every placement letter deleted, wherever it stands. */
  function StripPlacement(tok: string): (r: string)
    ensures 'A' !in r && 'D' !in r
    ensures forall c :: c != 'A' && c != 'D' ==> (c in r <==> c in tok)
  {
    Without(Without(tok, 'D'), 'A')
  }

  /** Deleting the placement letters works piece by piece. */
  lemma StripPlacementConcat(a: string, b: string)
    ensures StripPlacement(a + b) == StripPlacement(a) + StripPlacement(b)
  {
    WithoutConcat(a, b, 'D');
    WithoutConcat(Without(a, 'D'), Without(b, 'D'), 'A');
  }

  /** An `A` or `D` anywhere in a token does not change the degrees it names, so `4A5` names 45. */
  lemma TokenDegreesIgnoresPlacement(a: string, letter: char, b: string)
    requires letter == 'A' || letter == 'D'
    ensures TokenDegrees(a + [letter] + b) == TokenDegrees(a + b)
  {
    StripPlacementConcat(a + [letter], b);
    StripPlacementConcat(a, [letter]);
    StripPlacementConcat(a, b);
    assert StripPlacement([letter]) == [];
    assert StripPlacement(a) + [] == StripPlacement(a);
  }

  /** The whole number of degrees a token names, or `None` where `int()` raises. */
  function TokenDegrees(tok: string): (d: Option<int>)
    ensures d.Some? ==> forall c :: c in tok ==> IsDigit(c) || c in "+-AD"
    ensures d.Some? <==> IntText(StripPlacement(tok))
  {
    ParseIntAccepts(StripPlacement(tok));
    ParseInt(StripPlacement(tok))
  }

  /** `math.radians` of the token's whole degrees. */
  function TokenAngle(tok: string): (a: real)
    requires TokenDegrees(tok).Some?
    ensures ValidDegrees(TokenDegrees(tok).value) ==> 0.0 < a < RightAngle
  {
    DegreesInverse(TokenDegrees(tok).value as real);
    Radians(TokenDegrees(tok).value as real)
  }

  /** An `A` anywhere makes the token ascending; otherwise a `D` anywhere makes it descending. */
  function Placement(tok: string): (l: Location)
    ensures l == Ascending <==> 'A' in tok
    ensures l == Descending <==> 'A' !in tok && 'D' in tok
    ensures l == Any <==> 'A' !in tok && 'D' !in tok
  {
    if 'A' in tok then Ascending
    else if 'D' in tok then Descending
    else Any
  }

  predicate ValidDegrees(d: int)
  {
    0 < d < 90
  }

  /** Whether the loop of `parseCmd` gets past token i: `int()` accepts it once its letters are
      deleted, the value lies strictly between 0 and 90, and a token carrying a placement letter
      is not equal to the command's first token (the source compares token values, not positions). */
  predicate Accepted(toks: seq<string>, i: int)
    requires 0 <= i < |toks|
  {
    var d := TokenDegrees(toks[i]);
    d.Some? && ValidDegrees(d.value) && (Placement(toks[i]) != Any ==> toks[0] != toks[i])
  }

  /** A token carrying a placement letter is refused only when it equals the first token, so the
      first token itself is accepted exactly when it names a whole number of degrees in (0, 90)
      and carries no placement letter. */
  lemma FirstTokenAccepted(toks: seq<string>)
    requires |toks| > 0
    ensures Accepted(toks, 0) <==>
      TokenDegrees(toks[0]).Some? && ValidDegrees(TokenDegrees(toks[0]).value) && Placement(toks[0]) == Any
  {
  }

  /** The plan `parseCmd(cmd)` leaves in `cutCmd` when the laminate's design height is `heightDesign`. */
  function Parse(cmd: string, heightDesign: real): (r: CutCmd)
    ensures |r.angle| == |r.location| == |r.height|
    ensures r == Empty || |r.angle| == |Tokens(cmd)|
    ensures forall i :: 0 <= i < |r.angle| ==> 0.0 < r.angle[i] < RightAngle
    ensures forall i :: 0 <= i < |r.height| - 1 ==> r.height[i] == Sentinel
    ensures r != Empty ==> r.height[|r.height| - 1] == heightDesign && r.location[0] == Any
  {
    if |cmd| == 0 then Empty
    else
      var toks := Tokens(cmd);
      if [] in toks then Empty
      else if exists i :: 0 <= i < |toks| && !Accepted(toks, i) then Empty
      else
        assert Accepted(toks, 0);
        assert forall i :: 0 <= i < |toks| ==> TokenDegrees(toks[i]).Some? && ValidDegrees(TokenDegrees(toks[i]).value) by {
          forall i | 0 <= i < |toks|
            ensures TokenDegrees(toks[i]).Some? && ValidDegrees(TokenDegrees(toks[i]).value)
          {
            assert Accepted(toks, i);
          }
        }
        CutCmd(seq(|toks|, i requires 0 <= i < |toks| => TokenAngle(toks[i])),
               seq(|toks|, i requires 0 <= i < |toks| => Placement(toks[i])),
               seq(|toks|, i => if i == |toks| - 1 then heightDesign else Sentinel))
  }

  /** A command is accepted exactly when it is non-empty, no token is empty, every token names a
      whole number of degrees strictly between 0 and 90, and the first token carries no placement
      letter. Comparing token values instead of positions changes nothing: a later token equal
      to the first one carries a letter only if the first one does. */
  lemma ParseSucceedsIff(cmd: string, heightDesign: real)
    ensures Parse(cmd, heightDesign) != Empty <==>
      && |cmd| > 0
      && [] !in Tokens(cmd)
      && Placement(Tokens(cmd)[0]) == Any
      && forall i :: 0 <= i < |Tokens(cmd)| ==>
           TokenDegrees(Tokens(cmd)[i]).Some? && ValidDegrees(TokenDegrees(Tokens(cmd)[i]).value)
  {
    var toks := Tokens(cmd);
    if |cmd| > 0 && [] !in toks {
      if Placement(toks[0]) == Any && forall i :: 0 <= i < |toks| ==> TokenDegrees(toks[i]).Some? && ValidDegrees(TokenDegrees(toks[i]).value) {
        forall i | 0 <= i < |toks|
          ensures Accepted(toks, i)
        {
          if Placement(toks[i]) != Any {
            assert toks[0] != toks[i];
          }
        }
        assert !exists i :: 0 <= i < |toks| && !Accepted(toks, i);
        assert |Parse(cmd, heightDesign).angle| == |toks| > 0;
      } else if Placement(toks[0]) != Any {
        assert !Accepted(toks, 0);
      } else {
        var i :| 0 <= i < |toks| && !(TokenDegrees(toks[i]).Some? && ValidDegrees(TokenDegrees(toks[i]).value));
        assert !Accepted(toks, i);
      }
    }
  }

  /** Every accepted token is stored as its angle in radians and its placement; each height
      but the last is the sentinel, the last is the design height. */
  lemma ParseContents(cmd: string, heightDesign: real, i: int)
    requires Parse(cmd, heightDesign) != Empty
    requires 0 <= i < |Tokens(cmd)|
    ensures TokenDegrees(Tokens(cmd)[i]).Some?
    ensures Parse(cmd, heightDesign).angle[i] == Radians(TokenDegrees(Tokens(cmd)[i]).value as real)
    ensures Parse(cmd, heightDesign).location[i] == Placement(Tokens(cmd)[i])
    ensures Parse(cmd, heightDesign).height[i] == if i == |Tokens(cmd)| - 1 then heightDesign else Sentinel
  {
    assert Accepted(Tokens(cmd), i);
  }

  /** One token the parser refuses empties the plan. */
  lemma RejectedToken(cmd: string, heightDesign: real, i: int)
    requires |cmd| > 0
    requires 0 <= i < |Tokens(cmd)|
    requires !Accepted(Tokens(cmd), i)
    ensures Parse(cmd, heightDesign) == Empty
  {
  }

  /** The plan built from the first `n` tokens while they are all accepted: their angles and
      placements in order, every height still the sentinel. */
  function PrefixPlan(toks: seq<string>, n: int): (r: CutCmd)
    requires 0 <= n <= |toks|
    requires forall j :: 0 <= j < n ==> Accepted(toks, j)
    ensures |r.angle| == |r.location| == |r.height| == n
  {
    CutCmd(seq(n, j requires 0 <= j < n && Accepted(toks, j) => TokenAngle(toks[j])),
           seq(n, j requires 0 <= j < n => Placement(toks[j])),
           seq(n, j => Sentinel))
  }

  lemma PrefixPlanStep(toks: seq<string>, n: int)
    requires 0 <= n < |toks|
    requires forall j :: 0 <= j <= n ==> Accepted(toks, j)
    ensures TokenDegrees(toks[n]).Some?
    ensures PrefixPlan(toks, n + 1) == CutCmd(PrefixPlan(toks, n).angle + [TokenAngle(toks[n])],
                                              PrefixPlan(toks, n).location + [Placement(toks[n])],
                                              PrefixPlan(toks, n).height + [Sentinel])
  {
    assert Accepted(toks, n);
  }

  /** When every token is accepted, the plan holds the tokens' angles and placements in order,
      every height is the sentinel but the last, and the last is the design height. */
  lemma AcceptedPlan(cmd: string, heightDesign: real)
    requires |cmd| > 0 && [] !in Tokens(cmd)
    requires forall j :: 0 <= j < |Tokens(cmd)| ==> Accepted(Tokens(cmd), j)
    ensures var p := PrefixPlan(Tokens(cmd), |Tokens(cmd)|);
      Parse(cmd, heightDesign) == p.(height := p.height[|p.height| - 1 := heightDesign])
  {
    var toks := Tokens(cmd);
    var p := PrefixPlan(toks, |toks|);
    var r := Parse(cmd, heightDesign);
    assert r.angle == p.angle;
    assert r.location == p.location;
    assert r.height == p.height[|p.height| - 1 := heightDesign];
  }

  /** A leading, trailing or doubled `/` (after whitespace is removed) empties the plan. */
  lemma MisplacedSlashRejected(cmd: string, heightDesign: real)
    requires HasEmptyPiece(Compact(cmd), '/')
    ensures Parse(cmd, heightDesign) == Empty
  {
    EmptyPieceIff(Compact(cmd), '/');
  }

  /** A placement letter on the first token empties the plan. */
  lemma FirstPlacementRejected(cmd: string, heightDesign: real)
    requires 'A' in Tokens(cmd)[0] || 'D' in Tokens(cmd)[0]
    ensures Parse(cmd, heightDesign) == Empty
  {
    ParseSucceedsIff(cmd, heightDesign);
  }

  /** A token that `int()` refuses once its letters are gone, or whose angle is not strictly
      between 0 and 90 degrees, empties the plan. */
  lemma BadAngleRejected(cmd: string, heightDesign: real, i: int)
    requires 0 <= i < |Tokens(cmd)|
    requires TokenDegrees(Tokens(cmd)[i]).None? || !ValidDegrees(TokenDegrees(Tokens(cmd)[i]).value)
    ensures Parse(cmd, heightDesign) == Empty
  {
    ParseSucceedsIff(cmd, heightDesign);
  }

  /** The suffix a placement is written with. */
  function Suffix(l: Location): string
  {
    match l
    case Any => ""
    case Ascending => "A"
    case Descending => "D"
  }

  /** The command text for a plan given in whole degrees and placements. */
  function Format(degrees: seq<int>, locations: seq<Location>): string
    requires |degrees| == |locations| > 0
  {
    Join(FormatTokens(degrees, locations), '/')
  }

  function FormatTokens(degrees: seq<int>, locations: seq<Location>): (toks: seq<string>)
    requires |degrees| == |locations|
    ensures |toks| == |degrees|
  {
    seq(|degrees|, i requires 0 <= i < |degrees| => IntToString(degrees[i]) + Suffix(locations[i]))
  }

  lemma DigitsCarryNoLetter(s: string)
    requires forall i :: 0 <= i < |s| ==> IsDigit(s[i]) || s[i] == '-'
    ensures Compacted(s) && '/' !in s && 'A' !in s && 'D' !in s
  {
  }

  lemma StripFormattedToken(s: string, l: Location)
    requires 'A' !in s && 'D' !in s
    ensures StripPlacement(s + Suffix(l)) == s
  {
    WithoutConcat(s, Suffix(l), 'D');
    WithoutConcat(Without(s, 'D'), Without(Suffix(l), 'D'), 'A');
  }

  lemma FormatTokenFacts(d: int, l: Location)
    requires d > 0
    ensures '/' !in IntToString(d) + Suffix(l)
    ensures Compacted(IntToString(d) + Suffix(l))
    ensures TokenDegrees(IntToString(d) + Suffix(l)) == Some(d)
    ensures Placement(IntToString(d) + Suffix(l)) == l
    ensures IntToString(d) + Suffix(l) != []
  {
    var s := IntToString(d);
    DigitsCarryNoLetter(s);
    StripFormattedToken(s, l);
    ParseIntOfIntToString(d);
    assert Compacted(Suffix(l));
  }

  lemma {:induction false} JoinCompacted(pieces: seq<string>, sep: char)
    requires |pieces| > 0
    requires !IsSpace(sep) && !IsLower(sep)
    requires forall i :: 0 <= i < |pieces| ==> Compacted(pieces[i])
    ensures Compacted(Join(pieces, sep))
  {
    if |pieces| > 1 {
      JoinCompacted(pieces[1..], sep);
    }
  }

  /** The command text splits back into exactly the tokens it was joined from. */
  lemma TokensOfFormat(degrees: seq<int>, locations: seq<Location>)
    requires |degrees| == |locations| > 0
    requires forall i :: 0 <= i < |degrees| ==> ValidDegrees(degrees[i])
    ensures |Format(degrees, locations)| > 0
    ensures Tokens(Format(degrees, locations)) == FormatTokens(degrees, locations)
    ensures forall i :: 0 <= i < |degrees| ==>
      && TokenDegrees(FormatTokens(degrees, locations)[i]) == Some(degrees[i])
      && Placement(FormatTokens(degrees, locations)[i]) == locations[i]
      && FormatTokens(degrees, locations)[i] != []
  {
    var pieces := FormatTokens(degrees, locations);
    forall i | 0 <= i < |pieces|
      ensures '/' !in pieces[i] && Compacted(pieces[i]) && pieces[i] != []
      ensures TokenDegrees(pieces[i]) == Some(degrees[i]) && Placement(pieces[i]) == locations[i]
    {
      FormatTokenFacts(degrees[i], locations[i]);
    }
    var text := Format(degrees, locations);
    JoinCompacted(pieces, '/');
    CompactFixes(text);
    SplitJoin(pieces, '/');
    assert |text| > 0 by {
      if |pieces| == 1 { assert text == pieces[0]; } else { assert text == pieces[0] + ['/'] + Join(pieces[1..], '/'); }
    }
  }

  /** Round trip: writing whole-degree angles in (0, 90) with their placements, the first one
      unmarked, and parsing the text gives back exactly those angles (in radians) and placements. */
  lemma ParseFormat(degrees: seq<int>, locations: seq<Location>, heightDesign: real)
    requires |degrees| == |locations| > 0
    requires forall i :: 0 <= i < |degrees| ==> ValidDegrees(degrees[i])
    requires locations[0] == Any
    ensures Parse(Format(degrees, locations), heightDesign) ==
      CutCmd(seq(|degrees|, i requires 0 <= i < |degrees| => Radians(degrees[i] as real)),
             locations,
             seq(|degrees|, i => if i == |degrees| - 1 then heightDesign else Sentinel))
  {
    var text := Format(degrees, locations);
    TokensOfFormat(degrees, locations);
    var toks := Tokens(text);
    ParseSucceedsIff(text, heightDesign);
    var r := Parse(text, heightDesign);
    forall i | 0 <= i < |toks|
      ensures r.angle[i] == Radians(degrees[i] as real) && r.location[i] == locations[i]
    {
      ParseContents(text, heightDesign, i);
    }
  }
}
