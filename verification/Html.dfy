/** `escapeHtml`: five whole-string replacements, one after the other. */
module Html {

  /** Every character replaced by a text. */
  function Each(s: string, f: char -> string): string { if s == [] then [] else f(s[0]) + Each(s[1..], f) }

  /** `s.replace(/c/g, by)` */
  function Replace(s: string, c: char, text: string): string { Each(s, x => if x == c then text else [x]) }

  function EscapeHtml(value: string): string {
    var three := Replace(Replace(Replace(value, '&', "&amp;"), '<', "&lt;"), '>', "&gt;");
    Replace(Replace(three, '\"', "&quot;"), '\'', "&#39;")
  }

  function Entity(c: char): string {
    match c
    case '&' => "&amp;"
    case '<' => "&lt;"
    case '>' => "&gt;"
    case '\"' => "&quot;"
    case '\'' => "&#39;"
    case _ => [c]
  }

  lemma {:induction false} EachAppend(a: string, b: string, f: char -> string)
    ensures Each(a + b, f) == Each(a, f) + Each(b, f)
    decreases |a|
  {
    if a == [] {
      assert a + b == b;
    } else {
      EachAppend(a[1..], b, f);
      assert (a + b)[1..] == a[1..] + b;
    }
  }

  lemma {:induction false} EachTwice(s: string, f: char -> string, g: char -> string, h: char -> string)
    requires forall c :: Each(f(c), g) == h(c)
    ensures Each(Each(s, f), g) == Each(s, h)
    decreases |s|
  {
    if s != [] {
      EachAppend(f(s[0]), Each(s[1..], f), g);
      EachTwice(s[1..], f, g, h);
    }
  }

  /** A text without the character is not touched. */
  lemma {:induction false} ReplaceNothing(s: string, c: char, text: string)
    requires c !in s
    ensures Replace(s, c, text) == s
    decreases |s|
  {
    if s != [] { ReplaceNothing(s[1..], c, text); }
  }

  /** What the first `n` replacements make of one character. */
  function Partly(n: nat, c: char): string {
    if (c == '&' && n >= 1) || (c == '<' && n >= 2) || (c == '>' && n >= 3)
       || (c == '\"' && n >= 4) || (c == '\'' && n >= 5)
    then Entity(c) else [c]
  }

  function Target(n: nat): char
    requires n < 5
  {
    "&<>\"'"[n]
  }

  lemma OneMore(n: nat, c: char)
    requires n < 5
    ensures Replace(Partly(n, c), Target(n), Entity(Target(n))) == Partly(n + 1, c)
  {
    var t := Target(n);
    if t in Partly(n, c) {
      assert t == c && Partly(n, c) == [c];
      var f := (x: char) => if x == t then Entity(t) else [x];
      assert Each([c], f) == f(c) + Each([], f);
    } else {
      ReplaceNothing(Partly(n, c), t, Entity(t));
    }
  }

  lemma Stage(s: string, n: nat)
    requires n < 5
    ensures Replace(Each(s, c => Partly(n, c)), Target(n), Entity(Target(n))) == Each(s, c => Partly(n + 1, c))
  {
    forall c ensures Each(Partly(n, c), x => if x == Target(n) then Entity(Target(n)) else [x]) == Partly(n + 1, c) {
      OneMore(n, c);
    }
    EachTwice(s, c => Partly(n, c), x => if x == Target(n) then Entity(Target(n)) else [x], c => Partly(n + 1, c));
  }

  lemma {:induction false} SameMap(s: string, f: char -> string, g: char -> string)
    requires forall c :: f(c) == g(c)
    ensures Each(s, f) == Each(s, g)
    decreases |s|
  {
    if s != [] { SameMap(s[1..], f, g); }
  }

  lemma {:induction false} MapNothing(s: string)
    ensures Each(s, c => Partly(0, c)) == s
  {
    if s != [] { MapNothing(s[1..]); }
  }

  /** The five replacements are one map over the characters. */
  lemma OnePass(value: string)
    ensures EscapeHtml(value) == Each(value, c => Entity(c))
    ensures EscapeHtml(value) == Each(value, c =>
      if c == '&' then "&amp;" else if c == '<' then "&lt;" else if c == '>' then "&gt;"
      else if c == '\"' then "&quot;" else if c == '\'' then "&#39;" else [c])
  {
    MapNothing(value);
    Stage(value, 0);
    Stage(value, 1);
    Stage(value, 2);
    Stage(value, 3);
    Stage(value, 4);
    SameMap(value, c => Partly(5, c), c => Entity(c));
    SameMap(value, c => Entity(c), c =>
      if c == '&' then "&amp;" else if c == '<' then "&lt;" else if c == '>' then "&gt;"
      else if c == '\"' then "&quot;" else if c == '\'' then "&#39;" else [c]);
  }

  /* ---- reading entities ---- */

  /** The character whose entity a text starts with. */
  function Leading(s: string): char
    requires s != []
  {
    if "&amp;" <= s then '&' else if "&lt;" <= s then '<' else if "&gt;" <= s then '>'
    else if "&quot;" <= s then '\"' else if "&#39;" <= s then '\'' else s[0]
  }

  function Unescape(s: string): string {
    if s == [] then []
    else
      var c := Leading(s);
      [c] + Unescape(s[if |Entity(c)| <= |s| then |Entity(c)| else |s|..])
  }

  lemma LeadingEntity(c: char, rest: string)
    ensures Leading(Entity(c) + rest) == c && (Entity(c) + rest)[|Entity(c)|..] == rest
  {
    var s := Entity(c) + rest;
    assert s[..|Entity(c)|] == Entity(c);
    assert s[0] == Entity(c)[0];
    if c in "&<>\"'" { assert s[1] == Entity(c)[1] && s[2] == Entity(c)[2]; }
  }

  /** Nothing is lost. */
  lemma {:induction false} Readable(value: string)
    ensures Unescape(Each(value, c => Entity(c))) == value
    decreases |value|
  {
    if value != [] {
      Readable(value[1..]);
      LeadingEntity(value[0], Each(value[1..], c => Entity(c)));
    }
  }

  lemma UnescapeInverts(value: string)
    ensures Unescape(EscapeHtml(value)) == value
  {
    OnePass(value);
    Readable(value);
  }

  predicate Raw(c: char) { c == '<' || c == '>' || c == '\"' || c == '\'' }

  lemma {:induction false} EachSafe(value: string)
    ensures forall x :: x in Each(value, c => Entity(c)) ==> !Raw(x)
    decreases |value|
  {
    if value != [] {
      EachSafe(value[1..]);
      EntitySafe(value[0]);
    }
  }

  lemma EntitySafe(c: char)
    ensures forall x :: x in Entity(c) ==> !Raw(x)
  {
  }

  /** No character that could open a tag or close an attribute is left. */
  lemma NothingRaw(value: string)
    ensures forall x :: x in EscapeHtml(value) ==> !Raw(x)
  {
    OnePass(value);
    EachSafe(value);
  }
}
