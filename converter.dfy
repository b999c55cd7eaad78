/** The text codec of the network game: program cards and session messages
    travel between host and clients as space-separated strings. */
module Converter {
  import opened Wrappers
  import opened Text
  import opened Geometry
  import opened Cards

  /** Why a conversion fails: the codec's own `NotProgramCardException`, or
      a runtime exception of the string and list classes that the code lets
      through. */
  datatype Fault = NotProgramCard | IndexOutOfBounds | NumberFormat

  // ---------------------------------------------------------------------
  // Cards to text

  /** `String.valueOf` of a rotation: the enum constant's name. */
  function RotateName(r: Rotate): string {
    match r
    case NoRotate => "NONE"
    case Left => "LEFT"
    case Right => "RIGHT"
    case UTurn => "UTURN"
  }

  /** `String.valueOf` of a rotation that may be `null`. */
  function RotationText(r: Option<Rotate>): string {
    if r.Some? then RotateName(r.value) else "null"
  }

  /** The rendering `convertToCard` compares its input with. */
  function Canonical(priority: int, steps: int, r: Option<Rotate>, name: string): string {
    IntToString(priority) + " " + IntToString(steps) + " " + RotationText(r) + " " + name
  }

  /** `convertToString(card)`: priority, distance, rotation and name, one
      space apart. */
  function ConvertToString(c: ProgramCard): (s: string)
    ensures s == Canonical(c.priority, c.distance, Some(c.rotate), c.name)
  {
    IntToString(c.priority) + " " + IntToString(c.distance) + " " + RotateName(c.rotate) + " " + c.name
  }

  /** `convertToString(playerNumber, card)`: the player's number in front of
      the card's rendering, or "no card" for a missing card. */
  function ConvertToStringFor(playerNumber: int, card: Option<ProgramCard>): (s: string)
    ensures card.None? <==> s == "no card"
  {
    if card.None? then "no card" else IntToString(playerNumber) + " " + ConvertToString(card.value)
  }

  // ---------------------------------------------------------------------
  // Splitting at spaces

  /** The tokens `splitBySpace` produces from the rest `s` of its input when
      it has collected `cur` since the last space: a space closes the
      current token, and the last character closes it too. A trailing space
      therefore leaves no empty token behind, while two spaces in a row
      give one. */
  function Tokens(s: string, cur: string): seq<string>
    decreases |s|
  {
    if |s| == 0 then []
    else if s[0] == ' ' then [cur] + Tokens(s[1..], "")
    else if |s| == 1 then [cur + [s[0]]]
    else Tokens(s[1..], cur + [s[0]])
  }

  function Split(s: string): seq<string> {
    Tokens(s, "")
  }

  /** The tokens joined again, one space apart. */
  function Join(ts: seq<string>): string
    decreases |ts|
  {
    if |ts| == 0 then "" else if |ts| == 1 then ts[0] else ts[0] + " " + Join(ts[1..])
  }

  /** `splitBySpace`: the characters are read one by one into the current
      token, which each space and the last character hand over. */
  method SplitBySpace(s: string) returns (strings: seq<string>)
    ensures strings == Split(s)
  {
    strings := [];
    var str := "";
    var i := 0;
    while i < |s|
      invariant 0 <= i <= |s|
      invariant strings + Tokens(s[i..], str) == Split(s)
    {
      var c := s[i];
      assert s[i..][0] == c && s[i..][1..] == s[i + 1..];
      if c == ' ' {
        strings := strings + [str];
        str := "";
      } else if i == |s| - 1 {
        str := str + [c];
        strings := strings + [str];
      } else {
        str := str + [c];
      }
      i := i + 1;
    }
  }

  /** Input left to read gives at least one token. */
  lemma {:induction false} TokensNonEmpty(s: string, cur: string)
    requires |s| > 0
    ensures |Tokens(s, cur)| > 0
    decreases |s|
  {
    if s[0] != ' ' && |s| > 1 {
      TokensNonEmpty(s[1..], cur + [s[0]]);
    }
  }

  /** No token holds a space. */
  lemma {:induction false} TokensHaveNoSpace(s: string, cur: string)
    requires ' ' !in cur
    ensures forall t :: t in Tokens(s, cur) ==> ' ' !in t
    decreases |s|
  {
    if |s| > 0 {
      if s[0] == ' ' {
        TokensHaveNoSpace(s[1..], "");
      } else if |s| > 1 {
        TokensHaveNoSpace(s[1..], cur + [s[0]]);
      }
    }
  }

  /** For input that does not end in a space, joining the tokens gives it
      back. */
  lemma {:induction false} JoinTokens(s: string, cur: string)
    requires |s| > 0 && s[|s| - 1] != ' '
    ensures Join(Tokens(s, cur)) == cur + s
    decreases |s|
  {
    if s[0] == ' ' {
      TokensNonEmpty(s[1..], "");
      JoinTokens(s[1..], "");
      assert cur + [' '] + s[1..] == cur + s;
    } else if |s| > 1 {
      JoinTokens(s[1..], cur + [s[0]]);
      assert cur + [s[0]] + s[1..] == cur + s;
    }
  }

  /** `splitBySpace` cuts at every space and loses nothing else: its tokens
      hold no space, and unless the string ends in a space they join back
      into it. */
  lemma SplitJoin(s: string)
    ensures forall t :: t in Split(s) ==> ' ' !in t
    ensures (|s| == 0 || s[|s| - 1] != ' ') ==> Join(Split(s)) == s
  {
    TokensHaveNoSpace(s, "");
    if |s| > 0 && s[|s| - 1] != ' ' {
      JoinTokens(s, "");
    }
  }

  /** A word followed by a space is the next token, whole. */
  lemma {:induction false} LeadingToken(a: string, rest: string, cur: string)
    requires ' ' !in a
    ensures Tokens(a + " " + rest, cur) == [cur + a] + Tokens(rest, "")
    decreases |a|
  {
    var s := a + " " + rest;
    if |a| == 0 {
      assert s[0] == ' ' && s[1..] == rest && cur + a == cur;
    } else {
      assert s[0] == a[0] && s[1..] == a[1..] + " " + rest;
      LeadingToken(a[1..], rest, cur + [a[0]]);
      assert cur + [a[0]] + a[1..] == cur + a;
    }
  }

  // ---------------------------------------------------------------------
  // Text to cards

  /** `getName`: the first of the nine card names, in the code's order,
      that occurs anywhere in the string. */
  function GetName(s: string): (name: string)
  {
    if Contains(s, "U-turn") then "U-turn"
    else if Contains(s, "Left turn") then "Left turn"
    else if Contains(s, "Right turn") then "Right turn"
    else if Contains(s, "Right rotate") then "Right rotate"
    else if Contains(s, "Left rotate") then "Left rotate"
    else if Contains(s, "Move 3") then "Move 3"
    else if Contains(s, "Move 1") then "Move 1"
    else if Contains(s, "Move 2") then "Move 2"
    else if Contains(s, "Back up") then "Back up"
    else "Could not match name."
  }

  /** The names of the nine kinds of program card. */
  const CardNames: set<string> :=
    {"U-turn", "Left turn", "Right turn", "Right rotate", "Left rotate", "Move 3", "Move 1", "Move 2", "Back up"}

  /** `getRotation`: the first rotation name, in the code's order, that
      occurs anywhere in the string, or `null`. */
  function GetRotation(s: string): (r: Option<Rotate>)
    ensures r.Some? ==> Contains(s, RotateName(r.value))
    ensures r.None? ==> forall q :: !Contains(s, RotateName(q))
  {
    if Contains(s, "UTURN") then Some(UTurn)
    else if Contains(s, "LEFT") then Some(Left)
    else if Contains(s, "RIGHT") then Some(Right)
    else if Contains(s, "NONE") then Some(NoRotate)
    else None
  }

  /** What `convertToCard` builds: priority, steps, rotation (which may be
      `null`) and name. */
  datatype RawCard = RawCard(priority: int, steps: int, rotation: Option<Rotate>, name: string)

  /** `convertToCard` as the code writes it. The first two tokens must be
      present (the list lookup throws otherwise) and parse as integers (a
      `NumberFormatException` becomes `NotProgramCardException`); the
      rotation and name are searched for in the whole string, and the
      string must equal their canonical rendering. The `assert` on the
      rotation is skipped, as it is unless the JVM runs with assertions
      enabled, so a `null` rotation passes when the string spells it
      "null". */
  function ConvertToCardAsWritten(s: string): (r: Result<RawCard, Fault>)
    ensures r.Ok? ==> s == Canonical(r.value.priority, r.value.steps, r.value.rotation, r.value.name)
    ensures r.Err? ==> r.error != NumberFormat
  {
    var strings := Split(s);
    if |strings| == 0 then Err(IndexOutOfBounds)
    else
      var prio := ParseInt(strings[0]);
      if prio.None? then Err(NotProgramCard)
      else if |strings| == 1 then Err(IndexOutOfBounds)
      else
        var steps := ParseInt(strings[1]);
        if steps.None? then Err(NotProgramCard)
        else
          var rotation := GetRotation(s);
          var name := GetName(s);
          if s != Canonical(prio.value, steps.value, rotation, name) then Err(NotProgramCard)
          else Ok(RawCard(prio.value, steps.value, rotation, name))
  }

  /** `convertToCard` with the asserted non-`null` rotation enforced: a
      string without a rotation is not a program card. Whatever it accepts
      is the rendering of the card it returns. */
  function ConvertToCard(s: string): (r: Result<ProgramCard, Fault>)
    ensures r.Ok? ==> ConvertToString(r.value) == s
    ensures ConvertToCardAsWritten(s).Err? ==> r == Err(ConvertToCardAsWritten(s).error)
  {
    match ConvertToCardAsWritten(s)
    case Err(e) => Err(e)
    case Ok(c) =>
      if c.rotation.None? then Err(NotProgramCard)
      else Ok(ProgramCard(c.priority, c.steps, c.rotation.value, c.name))
  }

  /** No card name holds a space before its first lower-case letter, which
      comes second or third. */
  lemma NameHead(name: string)
    requires name in CardNames
    ensures |name| > 2 && IsUpper(name[0])
    ensures IsLower(name[1]) || (name[1] != ' ' && IsLower(name[2]))
  {
  }

  /** No card name holds a capital that a rotation name needs. */
  lemma NameCapitals(name: string)
    requires name in CardNames
    ensures forall j :: 0 <= j < |name| ==>
      name[j] != 'N' && name[j] != 'E' && name[j] != 'F' && name[j] != 'G' && name[j] != 'T'
  {
  }

  /** `getName` finds a card's own name in its rendering: the text before
      the name holds no lower-case letter. */
  lemma NameOfRendering(p: string, name: string)
    requires name in CardNames
    requires |p| > 0 && p[|p| - 1] == ' ' && NoLower(p)
    ensures GetName(p + name) == name
  {
    forall other | other in CardNames
      ensures Contains(p + name, other) == Contains(name, other)
    {
      NameHead(other);
      var ko := if IsLower(other[1]) then 1 else 2;
      ContainsAfterPlain(p, name, other, ko);
    }
    OwnNameFirst(name);
  }

  /** `getName` finds each card name in itself: no name tried before it
      occurs in it. */
  lemma OwnNameFirst(name: string)
    requires name in CardNames
    ensures GetName(name) == name
  {
    if name == "U-turn" {
      NameFoundUTurn(name);
    } else if name == "Left turn" {
      NameFoundLeftTurn(name);
    } else if name == "Right turn" {
      NameFoundRightTurn(name);
    } else if name == "Right rotate" {
      NameFoundRightRotate(name);
    } else if name == "Left rotate" {
      NameFoundLeftRotate(name);
    } else if name == "Move 3" {
      NameFoundMove3(name);
    } else if name == "Move 1" {
      NameFoundMove1(name);
    } else if name == "Move 2" {
      NameFoundMove2(name);
    } else {
      NameFoundBackUp(name);
    }
  }

  lemma NameFoundUTurn(n: string)
    requires n == "U-turn"
    ensures GetName(n) == n
  {
    assert n[0..|n|] == n;
    ContainsAt(n, n, 0);
  }

  lemma NameFoundLeftTurn(n: string)
    requires n == "Left turn"
    ensures GetName(n) == n
  {
    assert 'U' in "U-turn" && 'U' !in n;
    assert n[0..|n|] == n;
    AbsentChar(n, "U-turn", 'U');
    ContainsAt(n, n, 0);
  }

  lemma NameFoundRightTurn(n: string)
    requires n == "Right turn"
    ensures GetName(n) == n
  {
    assert 'U' in "U-turn" && 'U' !in n;
    assert 'L' in "Left turn" && 'L' !in n;
    assert n[0..|n|] == n;
    AbsentChar(n, "U-turn", 'U');
    AbsentChar(n, "Left turn", 'L');
    ContainsAt(n, n, 0);
  }

  lemma NameFoundRightRotate(n: string)
    requires n == "Right rotate"
    ensures GetName(n) == n
  {
    assert 'U' in "U-turn" && 'U' !in n;
    assert 'L' in "Left turn" && 'L' !in n;
    assert 'u' in "Right turn" && 'u' !in n;
    assert n[0..|n|] == n;
    AbsentChar(n, "U-turn", 'U');
    AbsentChar(n, "Left turn", 'L');
    AbsentChar(n, "Right turn", 'u');
    ContainsAt(n, n, 0);
  }

  lemma NameFoundLeftRotate(n: string)
    requires n == "Left rotate"
    ensures GetName(n) == n
  {
    assert 'U' in "U-turn" && 'U' !in n;
    assert 'u' in "Left turn" && 'u' !in n;
    assert 'R' in "Right turn" && 'R' !in n;
    assert 'R' in "Right rotate" && 'R' !in n;
    assert n[0..|n|] == n;
    AbsentChar(n, "U-turn", 'U');
    AbsentChar(n, "Left turn", 'u');
    AbsentChar(n, "Right turn", 'R');
    AbsentChar(n, "Right rotate", 'R');
    ContainsAt(n, n, 0);
  }

  /** A string without `U`, `L` and `R` holds none of the turn and rotate
      names. */
  lemma TurnNamesAbsent(n: string)
    requires 'U' !in n && 'L' !in n && 'R' !in n
    ensures !Contains(n, "U-turn") && !Contains(n, "Left turn") && !Contains(n, "Right turn")
    ensures !Contains(n, "Right rotate") && !Contains(n, "Left rotate")
  {
    assert 'U' in "U-turn" && 'L' in "Left turn" && 'R' in "Right turn";
    assert 'R' in "Right rotate" && 'L' in "Left rotate";
    AbsentChar(n, "U-turn", 'U');
    AbsentChar(n, "Left turn", 'L');
    AbsentChar(n, "Right turn", 'R');
    AbsentChar(n, "Right rotate", 'R');
    AbsentChar(n, "Left rotate", 'L');
  }

  lemma NameFoundMove3(n: string)
    requires n == "Move 3"
    ensures GetName(n) == n
  {
    assert 'U' !in n && 'L' !in n && 'R' !in n;
    assert n[0..|n|] == n;
    TurnNamesAbsent(n);
    ContainsAt(n, n, 0);
  }

  lemma NameFoundMove1(n: string)
    requires n == "Move 1"
    ensures GetName(n) == n
  {
    assert 'U' !in n && 'L' !in n && 'R' !in n;
    assert '3' in "Move 3" && '3' !in n;
    assert n[0..|n|] == n;
    TurnNamesAbsent(n);
    AbsentChar(n, "Move 3", '3');
    ContainsAt(n, n, 0);
  }

  lemma NameFoundMove2(n: string)
    requires n == "Move 2"
    ensures GetName(n) == n
  {
    assert 'U' !in n && 'L' !in n && 'R' !in n;
    assert '3' in "Move 3" && '3' !in n;
    assert '1' in "Move 1" && '1' !in n;
    assert n[0..|n|] == n;
    TurnNamesAbsent(n);
    AbsentChar(n, "Move 3", '3');
    AbsentChar(n, "Move 1", '1');
    ContainsAt(n, n, 0);
  }

  lemma NameFoundBackUp(n: string)
    requires n == "Back up"
    ensures GetName(n) == n
  {
    assert 'U' !in n && 'L' !in n && 'R' !in n;
    assert 'M' in "Move 3" && 'M' in "Move 1" && 'M' in "Move 2" && 'M' !in n;
    assert n[0..|n|] == n;
    TurnNamesAbsent(n);
    AbsentChar(n, "Move 3", 'M');
    AbsentChar(n, "Move 1", 'M');
    AbsentChar(n, "Move 2", 'M');
    ContainsAt(n, n, 0);
  }

  // ---------------------------------------------------------------------
  // The card round trip

  /** The rendering of a card up to its name. */
  function CardHead(c: ProgramCard): string {
    IntToString(c.priority) + " " + IntToString(c.distance) + " " + RotateName(c.rotate) + " "
  }

  /** A rotation name is all capitals. */
  lemma RotateNamePlain(r: Rotate)
    ensures NoLower(RotateName(r))
  {
  }

  /** Neither the numbers nor the rotation of a rendering hold a lower-case
      letter, and the head ends in the space before the name. */
  lemma {:induction false} HeadPlain(c: ProgramCard)
    ensures ConvertToString(c) == CardHead(c) + c.name
    ensures |CardHead(c)| > 0 && CardHead(c)[|CardHead(c)| - 1] == ' '
    ensures NoLower(CardHead(c))
  {
    RenderedNoLower(c.priority);
    RenderedNoLower(c.distance);
    RotateNamePlain(c.rotate);
    NoLowerJoin(IntToString(c.priority), " ");
    NoLowerJoin(IntToString(c.priority) + " ", IntToString(c.distance));
    NoLowerJoin(IntToString(c.priority) + " " + IntToString(c.distance), " ");
    NoLowerJoin(IntToString(c.priority) + " " + IntToString(c.distance) + " ", RotateName(c.rotate));
    NoLowerJoin(IntToString(c.priority) + " " + IntToString(c.distance) + " " + RotateName(c.rotate), " ");
  }

  /** A capital that neither the rotation text nor any card name holds is
      nowhere in a canonical rendering. */
  lemma {:induction false} CapitalAbsent(priority: int, steps: int, r: Option<Rotate>, name: string, ch: char)
    requires name in CardNames
    requires ch == 'N' || ch == 'E' || ch == 'F' || ch == 'G' || ch == 'T'
    requires ch !in RotationText(r)
    ensures ch !in Canonical(priority, steps, r, name)
  {
    if ch in IntToString(priority) {
      RenderedPlain(priority, ch);
    }
    if ch in IntToString(steps) {
      RenderedPlain(steps, ch);
    }
    NameCapitals(name);
  }

  /** The first two tokens of a canonical rendering are its two numbers,
      read back as they were. */
  lemma {:induction false} CanonicalNumbers(priority: int, steps: int, r: Option<Rotate>, name: string)
    requires IsInt32(priority) && IsInt32(steps)
    ensures |Split(Canonical(priority, steps, r, name))| >= 2
    ensures ParseInt(Split(Canonical(priority, steps, r, name))[0]) == Some(priority)
    ensures ParseInt(Split(Canonical(priority, steps, r, name))[1]) == Some(steps)
  {
    var p, d := IntToString(priority), IntToString(steps);
    if ' ' in p {
      RenderedPlain(priority, ' ');
    }
    if ' ' in d {
      RenderedPlain(steps, ' ');
    }
    var rest := RotationText(r) + " " + name;
    assert Canonical(priority, steps, r, name) == p + " " + (d + " " + rest);
    TwoTokens(p, d, rest);
    ParseRendered(priority);
    ParseRendered(steps);
  }

  /** Two space-free words in front of a space are the first two tokens. */
  lemma TwoTokens(p: string, d: string, rest: string)
    requires ' ' !in p && ' ' !in d
    ensures |Split(p + " " + (d + " " + rest))| >= 2
    ensures Split(p + " " + (d + " " + rest))[0] == p && Split(p + " " + (d + " " + rest))[1] == d
  {
    LeadingToken(p, d + " " + rest, "");
    LeadingToken(d, rest, "");
    assert "" + p == p && "" + d == d;
  }

  /** A card's rotation name occurs in its rendering, after the numbers. */
  lemma {:induction false} RotationOccurs(c: ProgramCard)
    ensures Contains(ConvertToString(c), RotateName(c.rotate))
  {
    var numbers := IntToString(c.priority) + " " + IntToString(c.distance) + " ";
    ContainsMiddle(numbers, RotateName(c.rotate), " " + c.name);
    assert ConvertToString(c) == numbers + RotateName(c.rotate) + (" " + c.name);
  }

  /** The rotation names that `getRotation` tries before a card's own each
      hold a capital that the card's rendering lacks. */
  lemma {:induction false} EarlierRotationsAbsent(c: ProgramCard)
    requires c.name in CardNames
    ensures c.rotate != UTurn ==> !Contains(ConvertToString(c), "UTURN")
    ensures c.rotate == Right || c.rotate == NoRotate ==> !Contains(ConvertToString(c), "LEFT")
    ensures c.rotate == NoRotate ==> !Contains(ConvertToString(c), "RIGHT")
  {
    var s, r := ConvertToString(c), Some(c.rotate);
    match c.rotate
    case UTurn =>
    case Left =>
      CapitalAbsent(c.priority, c.distance, r, c.name, 'N');
      AbsentChar(s, "UTURN", 'N');
    case Right =>
      CapitalAbsent(c.priority, c.distance, r, c.name, 'N');
      CapitalAbsent(c.priority, c.distance, r, c.name, 'E');
      AbsentChar(s, "UTURN", 'N');
      AbsentChar(s, "LEFT", 'E');
    case NoRotate =>
      CapitalAbsent(c.priority, c.distance, r, c.name, 'T');
      CapitalAbsent(c.priority, c.distance, r, c.name, 'F');
      CapitalAbsent(c.priority, c.distance, r, c.name, 'G');
      AbsentChar(s, "UTURN", 'T');
      AbsentChar(s, "LEFT", 'F');
      AbsentChar(s, "RIGHT", 'G');
  }

  /** `getRotation` finds a card's own rotation in its rendering. */
  lemma {:induction false} RenderingRotation(c: ProgramCard)
    requires c.name in CardNames
    ensures GetRotation(ConvertToString(c)) == Some(c.rotate)
  {
    RotationOccurs(c);
    EarlierRotationsAbsent(c);
  }

  /** Every card whose numbers are 32-bit and whose name is one of the nine
      survives the trip through text: `convertToCard(convertToString(c))`
      gives `c` back. */
  lemma CardRoundTrip(c: ProgramCard)
    requires IsInt32(c.priority) && IsInt32(c.distance) && c.name in CardNames
    ensures ConvertToCard(ConvertToString(c)) == Ok(c)
  {
    CanonicalNumbers(c.priority, c.distance, Some(c.rotate), c.name);
    RenderingRotation(c);
    HeadPlain(c);
    NameOfRendering(CardHead(c), c.name);
  }

  /** A rendering whose rotation reads "null" holds no rotation name. */
  lemma {:induction false} NullRotationAbsent(priority: int, steps: int, name: string)
    requires name in CardNames
    ensures GetRotation(Canonical(priority, steps, None, name)) == None
  {
    var s := Canonical(priority, steps, None, name);
    CapitalAbsent(priority, steps, None, name, 'N');
    CapitalAbsent(priority, steps, None, name, 'E');
    CapitalAbsent(priority, steps, None, name, 'G');
    AbsentChar(s, "UTURN", 'N');
    AbsentChar(s, "LEFT", 'E');
    AbsentChar(s, "RIGHT", 'G');
    AbsentChar(s, "NONE", 'N');
  }

  /** `getName` finds the name after a "null" rotation too: the text before
      it holds no capital, and every card name starts with one. */
  lemma {:induction false} NullRotationName(priority: int, steps: int, name: string)
    requires name in CardNames
    ensures GetName(Canonical(priority, steps, None, name)) == name
  {
    var p := IntToString(priority) + " " + IntToString(steps) + " " + "null" + " ";
    assert Canonical(priority, steps, None, name) == p + name;
    forall j | 0 <= j < |p|
      ensures !IsUpper(p[j])
    {
      var ch := p[j];
      assert ch in p;
      if ch in IntToString(priority) {
        RenderedPlain(priority, ch);
      } else if ch in IntToString(steps) {
        RenderedPlain(steps, ch);
      } else {
        assert ch in " null ";
      }
    }
    forall other | other in CardNames
      ensures Contains(p + name, other) == Contains(name, other)
    {
      NameHead(other);
      ContainsAfterNoUpper(p, name, other);
    }
    OwnNameFirst(name);
  }

  /** The finding on `convertToCard`: with the `assert` skipped, every
      rendering whose rotation reads "null" comes back as a card without a
      rotation, which `ConvertToCard` refuses. */
  lemma NullRotationAccepted(priority: int, steps: int, name: string)
    requires IsInt32(priority) && IsInt32(steps) && name in CardNames
    ensures ConvertToCardAsWritten(Canonical(priority, steps, None, name)) == Ok(RawCard(priority, steps, None, name))
    ensures ConvertToCard(Canonical(priority, steps, None, name)) == Err(NotProgramCard)
  {
    CanonicalNumbers(priority, steps, None, name);
    NullRotationAbsent(priority, steps, name);
    NullRotationName(priority, steps, name);
  }

  // ---------------------------------------------------------------------
  // Session messages

  /** The constants of the message enumeration, which `toString` renders by
      name. */
  datatype Message = Quit | HereIsMap | Players | YourNumber | StopThread | HostLeaves
    | ContinueTurn | StartTurn | DeckBegin | DeckEnd | PoweringDown | PowerUp | Closed

  function MessageName(m: Message): string {
    match m
    case Quit => "QUIT"
    case HereIsMap => "HERE_IS_MAP"
    case Players => "PLAYERS"
    case YourNumber => "YOUR_NUMBER"
    case StopThread => "STOP_THREAD"
    case HostLeaves => "HOST_LEAVES"
    case ContinueTurn => "CONTINUE_TURN"
    case StartTurn => "START_TURN"
    case DeckBegin => "DECK_BEGIN"
    case DeckEnd => "DECK_END"
    case PoweringDown => "POWERING_DOWN"
    case PowerUp => "POWER_UP"
    case Closed => "CLOSED"
  }

  /** `isMessageFromAnotherPlayer`: a player's message starts with a digit;
      the first character of an empty message does not exist. */
  function IsMessageFromAnotherPlayer(message: string): (r: Result<bool, Fault>)
    ensures r.Err? <==> |message| == 0
  {
    if |message| == 0 then Err(IndexOutOfBounds) else Ok(IsDigit(message[0]))
  }

  /** `getPlayerNumberFromMessage`: the value of the leading digit, or -1
      for a message that is not a player's. */
  function GetPlayerNumberFromMessage(message: string): (r: Result<int, Fault>)
    ensures r.Err? <==> |message| == 0
    ensures r.Ok? ==> -1 <= r.value < 10
    ensures r.Ok? ==> (r.value != -1 <==> IsMessageFromAnotherPlayer(message) == Ok(true))
  {
    match IsMessageFromAnotherPlayer(message)
    case Err(e) => Err(e)
    case Ok(fromPlayer) => if fromPlayer then Ok(DigitValue(message[0])) else Ok(-1)
  }

  /** `getMessageFromPlayer`: what follows the digit and its space, or
      `null` for a message that is not a player's. A lone digit has no
      third character to start from. */
  function GetMessageFromPlayer(message: string): (r: Result<Option<string>, Fault>)
    ensures r.Ok? ==> (r.value.Some? <==> IsMessageFromAnotherPlayer(message) == Ok(true))
    ensures r.Ok? && r.value.Some? ==> |r.value.value| == |message| - 2
    ensures r.Err? <==> |message| == 0 || (|message| == 1 && IsDigit(message[0]))
  {
    match IsMessageFromAnotherPlayer(message)
    case Err(e) => Err(e)
    case Ok(fromPlayer) =>
      if !fromPlayer then Ok(None)
      else if |message| < 2 then Err(IndexOutOfBounds)
      else Ok(Some(message[2..]))
  }

  /** `createMessageFromPlayer`: the player's number, a space and the
      message's name. */
  function CreateMessageFromPlayer(playerNumber: int, message: Message): string {
    IntToString(playerNumber) + " " + MessageName(message)
  }

  /** `createQuitMessage`: the player message QUIT. */
  function CreateQuitMessage(myPlayerNumber: int): (s: string)
    ensures s == CreateMessageFromPlayer(myPlayerNumber, Quit)
  {
    IntToString(myPlayerNumber) + " " + MessageName(Quit)
  }

  /** The number written after a message name of `length` characters; the
      message may be shorter than the name, or the rest not a number. */
  function NumberAfter(length: nat, message: string): (r: Result<int, Fault>)
    ensures r.Ok? ==> IsInt32(r.value)
    ensures r == Err(IndexOutOfBounds) <==> |message| < length
  {
    if |message| < length then Err(IndexOutOfBounds)
    else match ParseInt(message[length..])
      case None => Err(NumberFormat)
      case Some(n) => Ok(n)
  }

  function CreateMapPathMessage(mapPath: string): string {
    MessageName(HereIsMap) + mapPath
  }

  /** `getMapPath`: whatever follows the length of HERE_IS_MAP, whether or
      not the message starts with it. */
  function GetMapPath(message: string): (r: Result<string, Fault>)
    ensures r.Err? <==> |message| < |MessageName(HereIsMap)|
    ensures r.Ok? ==> |r.value| == |message| - |MessageName(HereIsMap)|
  {
    var length := |MessageName(HereIsMap)|;
    if |message| < length then Err(IndexOutOfBounds) else Ok(message[length..])
  }

  function CreateNumberOfPlayersMessage(numberOfPlayers: int): string {
    MessageName(Players) + IntToString(numberOfPlayers)
  }

  function GetNumbersOfPlayers(message: string): (r: Result<int, Fault>)
    ensures r.Ok? ==> IsInt32(r.value)
  {
    NumberAfter(|MessageName(Players)|, message)
  }

  function CreatePlayerNumberMessage(playerNumber: int): string {
    MessageName(YourNumber) + IntToString(playerNumber)
  }

  function GetMyPlayerNumber(message: string): (r: Result<int, Fault>)
    ensures r.Ok? ==> IsInt32(r.value)
  {
    NumberAfter(|MessageName(YourNumber)|, message)
  }

  /** Whatever follows the number of a player numbered 0 to 9 and its
      space is read back, and so is the number. */
  lemma RelayedRoundTrip(playerNumber: int, body: string)
    requires 0 <= playerNumber < 10
    ensures IsMessageFromAnotherPlayer(IntToString(playerNumber) + " " + body) == Ok(true)
    ensures GetPlayerNumberFromMessage(IntToString(playerNumber) + " " + body) == Ok(playerNumber)
    ensures GetMessageFromPlayer(IntToString(playerNumber) + " " + body) == Ok(Some(body))
  {
    SingleCharRendering(playerNumber);
    var s := IntToString(playerNumber) + " " + body;
    assert s == [DigitChar(playerNumber)] + " " + body;
    assert s[2..] == body;
  }

  /** A player numbered 0 to 9 is read back from its message, and so is the
      message. */
  lemma PlayerMessageRoundTrip(playerNumber: int, message: Message)
    requires 0 <= playerNumber < 10
    ensures IsMessageFromAnotherPlayer(CreateMessageFromPlayer(playerNumber, message)) == Ok(true)
    ensures GetPlayerNumberFromMessage(CreateMessageFromPlayer(playerNumber, message)) == Ok(playerNumber)
    ensures GetMessageFromPlayer(CreateMessageFromPlayer(playerNumber, message)) == Ok(Some(MessageName(message)))
  {
    RelayedRoundTrip(playerNumber, MessageName(message));
  }

  /** Only the first digit is read: a player numbered 10 or more is taken
      for a smaller one. */
  lemma PlayerNumberOneDigit(playerNumber: int, message: Message)
    requires playerNumber >= 10
    ensures GetPlayerNumberFromMessage(CreateMessageFromPlayer(playerNumber, message)).Ok?
    ensures GetPlayerNumberFromMessage(CreateMessageFromPlayer(playerNumber, message)).value < playerNumber
  {
    RenderedShape(playerNumber);
  }

  /** Every message name starts with a capital letter. */
  lemma MessageNameCapital(m: Message)
    ensures |MessageName(m)| > 0 && 'A' <= MessageName(m)[0] <= 'Z'
  {
  }

  /** The host's messages, a name followed by anything, are never taken for
      a player's. */
  lemma HostMessageNotFromPlayer(m: Message, rest: string)
    ensures IsMessageFromAnotherPlayer(MessageName(m) + rest) == Ok(false)
    ensures GetPlayerNumberFromMessage(MessageName(m) + rest) == Ok(-1)
    ensures GetMessageFromPlayer(MessageName(m) + rest) == Ok(None)
  {
    MessageNameCapital(m);
    assert (MessageName(m) + rest)[0] == MessageName(m)[0];
  }

  lemma MapPathRoundTrip(mapPath: string)
    ensures GetMapPath(CreateMapPathMessage(mapPath)) == Ok(mapPath)
  {
    assert CreateMapPathMessage(mapPath)[|MessageName(HereIsMap)|..] == mapPath;
  }

  /** A 32-bit number after a message name is read back. */
  lemma {:induction false} NumberAfterRoundTrip(name: string, n: int)
    requires IsInt32(n)
    ensures NumberAfter(|name|, name + IntToString(n)) == Ok(n)
  {
    assert (name + IntToString(n))[|name|..] == IntToString(n);
    ParseRendered(n);
  }

  lemma PlayersRoundTrip(numberOfPlayers: int)
    requires IsInt32(numberOfPlayers)
    ensures GetNumbersOfPlayers(CreateNumberOfPlayersMessage(numberOfPlayers)) == Ok(numberOfPlayers)
  {
    NumberAfterRoundTrip(MessageName(Players), numberOfPlayers);
  }

  lemma PlayerNumberRoundTrip(playerNumber: int)
    requires IsInt32(playerNumber)
    ensures GetMyPlayerNumber(CreatePlayerNumberMessage(playerNumber)) == Ok(playerNumber)
  {
    NumberAfterRoundTrip(MessageName(YourNumber), playerNumber);
  }

  /** A card the host relays for player 0 to 9 arrives whole: the player's
      number, then the card's rendering, which converts back to the card. */
  lemma CardMessageRoundTrip(playerNumber: int, c: ProgramCard)
    requires 0 <= playerNumber < 10
    requires IsInt32(c.priority) && IsInt32(c.distance) && c.name in CardNames
    ensures GetPlayerNumberFromMessage(ConvertToStringFor(playerNumber, Some(c))) == Ok(playerNumber)
    ensures GetMessageFromPlayer(ConvertToStringFor(playerNumber, Some(c))) == Ok(Some(ConvertToString(c)))
    ensures ConvertToCard(ConvertToString(c)) == Ok(c)
  {
    RelayedRoundTrip(playerNumber, ConvertToString(c));
    CardRoundTrip(c);
  }
}
