/** The sign-up page's password strength meter: five rules, a score counting
    the rules met, a percentage and a bar colour. Passwords are JavaScript
    strings, i.e. sequences of UTF-16 code units, and every rule is a regular
    expression without flags, so each pattern character matches one code unit. */
module PasswordStrength {

  type CodeUnit = c: nat | c < 0x1_0000

  type JsString = seq<CodeUnit>

  /** What `.` does not match without the `s` flag: LF, CR, LS and PS. */
  predicate IsLineTerminator(c: CodeUnit)
  {
    c == 0x0A || c == 0x0D || c == 0x2028 || c == 0x2029
  }

  predicate IsAsciiUpper(c: CodeUnit) { 0x41 <= c <= 0x5A }
  predicate IsAsciiLower(c: CodeUnit) { 0x61 <= c <= 0x7A }
  predicate IsAsciiDigit(c: CodeUnit) { 0x30 <= c <= 0x39 }

  /** The five entries of `rules`, in order. */
  datatype Rule = MinLength | HasUpper | HasLower | HasDigit | HasSymbol

  const Rules: seq<Rule> := [MinLength, HasUpper, HasLower, HasDigit, HasSymbol]

  function Message(r: Rule): string
  {
    match r
    case MinLength => "Pelo menos 8 caracteres"
    case HasUpper => "Pelo menos 1 letra maiúscula"
    case HasLower => "Pelo menos 1 letra minúscula"
    case HasDigit => "Pelo menos 1 número"
    case HasSymbol => "Pelo menos 1 símbolo (ex: !, @, #)"
  }

  /** `/.{8,}/.test(p)`: somewhere there are 8 code units in a row none of
      which is a line terminator. */
  predicate EightInARow(p: JsString)
  {
    exists i :: 0 <= i <= |p| - 8 && WindowAt(p, i)
  }

  /** The 8 code units from position `i` on exist and none ends a line. */
  predicate WindowAt(p: JsString, i: int)
  {
    0 <= i <= |p| - 8 && forall k :: i <= k < i + 8 ==> !IsLineTerminator(p[k])
  }

  /** `regex.test(p)` for each rule. `[^A-Za-z0-9]` matches every other code
      unit: punctuation, spaces, line terminators and non-ASCII letters alike. */
  predicate Meets(p: JsString, r: Rule)
    ensures Meets(p, r) ==> |p| >= (if r == MinLength then 8 else 1)
  {
    match r
    case MinLength => EightInARow(p)
    case HasUpper => exists i :: 0 <= i < |p| && IsAsciiUpper(p[i])
    case HasLower => exists i :: 0 <= i < |p| && IsAsciiLower(p[i])
    case HasDigit => exists i :: 0 <= i < |p| && IsAsciiDigit(p[i])
    case HasSymbol => exists i :: 0 <= i < |p| && !IsAsciiUpper(p[i]) && !IsAsciiLower(p[i]) && !IsAsciiDigit(p[i])
  }

  /** On a single line the length rule is just "at least 8 code units". */
  lemma EightInARowIsLength(p: JsString)
    requires forall k :: 0 <= k < |p| ==> !IsLineTerminator(p[k])
    ensures EightInARow(p) <==> |p| >= 8
  {
    if |p| >= 8 {
      assert WindowAt(p, 0);
    }
  }

  /** The number of rules of `rules` that `p` meets. */
  function CountMet(p: JsString, rules: seq<Rule>): (n: nat)
    ensures n <= |rules|
    decreases |rules|
  {
    if rules == [] then 0
    else CountMet(p, rules[..|rules| - 1]) + (if Meets(p, rules[|rules| - 1]) then 1 else 0)
  }

  /** The score counts exactly the rules met: it is |rules| when all are met
      and 0 when none is. */
  lemma {:induction false} CountMetExtremes(p: JsString, rules: seq<Rule>)
    ensures CountMet(p, rules) == |rules| <==> forall i :: 0 <= i < |rules| ==> Meets(p, rules[i])
    ensures CountMet(p, rules) == 0 <==> forall i :: 0 <= i < |rules| ==> !Meets(p, rules[i])
    decreases |rules|
  {
    if rules != [] {
      var front := rules[..|rules| - 1];
      CountMetExtremes(p, front);
      assert forall i :: 0 <= i < |front| ==> front[i] == rules[i];
    }
  }

  /** `Math.round(score / total * 100)`: half-way values round up. */
  function Strength(score: nat, total: nat): (s: nat)
    requires 0 < total
    ensures 2 * total * s <= 200 * score + total < 2 * total * (s + 1)
  {
    (200 * score + total) / (2 * total)
  }

  /** With five rules the strength is 20 points per rule met, 0 to 100. */
  lemma StrengthOfFive(score: nat)
    requires score <= |Rules|
    ensures Strength(score, |Rules|) == 20 * score
    ensures Strength(score, |Rules|) <= 100
  {
  }

  datatype Colour = Success | Warning | Danger

  /** `updateProgressBar`'s colour class: 'bg-success' from 80, 'bg-warning'
      from 50 up to 79, 'bg-danger' below 50. */
  function BarColour(strength: int): (c: Colour)
    ensures c == Success <==> strength >= 80
    ensures c == Warning <==> 50 <= strength < 80
    ensures c == Danger <==> strength < 50
  {
    if strength >= 80 then Success
    else if strength >= 50 then Warning
    else Danger
  }

  function ColourClass(c: Colour): string
  {
    match c
    case Success => "bg-success"
    case Warning => "bg-warning"
    case Danger => "bg-danger"
  }

  /** In terms of rules met: green from 4, yellow at 3, red up to 2. */
  lemma ColourByScore(score: nat)
    requires score <= |Rules|
    ensures BarColour(Strength(score, |Rules|)) == Success <==> score >= 4
    ensures BarColour(Strength(score, |Rules|)) == Warning <==> score == 3
    ensures BarColour(Strength(score, |Rules|)) == Danger <==> score <= 2
  {
    StrengthOfFive(score);
  }

  /** One entry of the rebuilt requirements list: 'text-success' with a check
      icon when met, 'text-muted' with a cross otherwise. */
  datatype Requirement = Requirement(message: string, met: bool)

  /** `checkPasswordStrength`: one list entry per rule, the percentage, and the
      bar colour. */
  method CheckPasswordStrength(p: JsString) returns (list: seq<Requirement>, strength: nat, colour: Colour)
    ensures |list| == |Rules|
    ensures forall i :: 0 <= i < |Rules| ==> list[i] == Requirement(Message(Rules[i]), Meets(p, Rules[i]))
    ensures strength == Strength(CountMet(p, Rules), |Rules|)
    ensures colour == BarColour(strength)
  {
    var score := 0;
    list := [];
    var i := 0;
    while i < |Rules|
      invariant 0 <= i <= |Rules|
      invariant score == CountMet(p, Rules[..i])
      invariant |list| == i
      invariant forall j :: 0 <= j < i ==> list[j] == Requirement(Message(Rules[j]), Meets(p, Rules[j]))
    {
      var isMet := Meets(p, Rules[i]);
      list := list + [Requirement(Message(Rules[i]), isMet)];
      if isMet {
        score := score + 1;
      }
      assert Rules[..i + 1][..i] == Rules[..i];
      i := i + 1;
    }
    assert Rules[..i] == Rules;
    strength := (score * 100 * 2 + |Rules|) / (2 * |Rules|);
    if strength >= 80 {
      colour := Success;
    } else if strength >= 50 {
      colour := Warning;
    } else {
      colour := Danger;
    }
  }

  /** `toggleRequirements`: the list is shown while the field has the focus or
      holds a value, so it hides only when the field is both blurred and
      empty. */
  predicate RequirementsShown(focused: bool, p: JsString)
    ensures !RequirementsShown(focused, p) <==> !focused && p == []
  {
    focused || |p| > 0
  }

  /** At page load the empty password meets no rule: 0%, red. */
  lemma EmptyAtLoad()
    ensures CountMet([], Rules) == 0
    ensures Strength(CountMet([], Rules), |Rules|) == 0
    ensures BarColour(Strength(CountMet([], Rules), |Rules|)) == Danger
  {
    CountMetExtremes([], Rules);
  }

  /** "Abcdef1!" meets all five rules and shows a full, green bar. */
  lemma StrongExample()
    ensures var p: JsString := [0x41, 0x62, 0x63, 0x64, 0x65, 0x66, 0x31, 0x21];
            CountMet(p, Rules) == 5 && BarColour(Strength(5, |Rules|)) == Success
  {
    var p: JsString := [0x41, 0x62, 0x63, 0x64, 0x65, 0x66, 0x31, 0x21];
    EightInARowIsLength(p);
    assert IsAsciiUpper(p[0]) && IsAsciiLower(p[1]) && IsAsciiDigit(p[6]);
    assert !IsAsciiUpper(p[7]) && !IsAsciiLower(p[7]) && !IsAsciiDigit(p[7]);
    CountMetExtremes(p, Rules);
  }
}
