/** `updateBackground` and the night override of `updateCurrent`
    (public/script.js): a weather description chooses one of the page's
    background classes on `document.body`. */
module Background {
  import opened Seqs

  /** The nine classes `updateBackground` removes before adding one. */
  const BackgroundClasses: seq<string> :=
    ["bg-clear", "bg-cloudy", "bg-drizzle", "bg-rain", "bg-thunder",
     "bg-snow", "bg-fog", "bg-night", "bg-default"]

  const NightClass: string := "bg-night"
  const DefaultClass: string := "bg-default"

  /** `toLowerCase` on one character, for the ASCII letters. */
  function LowerChar(c: char): char
  {
    if 'A' <= c <= 'Z' then (c as int + 32) as char else c
  }

  function ToLower(s: string): (r: string)
    ensures |r| == |s|
    ensures forall i :: 0 <= i < |s| ==> r[i] == LowerChar(s[i])
  {
    seq(|s|, i requires 0 <= i < |s| => LowerChar(s[i]))
  }

  /** `s.includes(sub)`: `sub` is a prefix of `s` or of one of its tails. */
  predicate Includes(s: string, sub: string)
  {
    sub <= s || (|s| > 0 && Includes(s[1..], sub))
  }

  /** `sub` occurs in `s` starting at index `i`. */
  predicate At(s: string, sub: string, i: int)
  {
    0 <= i && i + |sub| <= |s| && s[i..i + |sub|] == sub
  }

  /** `Includes` holds exactly when `sub` occurs in `s` at some index. */
  lemma {:induction false} IncludesMeansOccurs(s: string, sub: string)
    ensures Includes(s, sub) <==> exists i :: At(s, sub, i)
  {
    if sub <= s {
      assert At(s, sub, 0);
    } else if |s| > 0 {
      IncludesMeansOccurs(s[1..], sub);
      if Includes(s[1..], sub) {
        var i :| At(s[1..], sub, i);
        assert s[i + 1..i + 1 + |sub|] == s[1..][i..i + |sub|];
        assert At(s, sub, i + 1);
      }
      forall i | At(s, sub, i) ensures Includes(s[1..], sub) {
        if i > 0 {
          assert s[1..][i - 1..i - 1 + |sub|] == s[i..i + |sub|];
          assert At(s[1..], sub, i - 1);
        }
      }
    }
  }

  /** The class `updateBackground` picks for a description. */
  function ClassFor(condition: string): (cls: string)
    ensures cls in BackgroundClasses && cls != NightClass
  {
    ClassForLower(ToLower(condition))
  }

  /** The if/else chain of `updateBackground`, on the lower-cased
      description `c`. */
  function ClassForLower(c: string): (cls: string)
    ensures cls in BackgroundClasses && cls != NightClass
  {
    if Includes(c, "thunderstorm") then "bg-thunder"
    else if Includes(c, "rain") then "bg-rain"
    else if Includes(c, "drizzle") then "bg-drizzle"
    else if Includes(c, "snow") then "bg-snow"
    else if Includes(c, "mist") || Includes(c, "fog") || Includes(c, "haze") then "bg-fog"
    else if Includes(c, "cloud") then "bg-cloudy"
    else if Includes(c, "clear") then "bg-clear"
    else DefaultClass
  }

  /** The same choice written as a priority table: the first rule with a
      keyword in the lower-cased description wins. */
  datatype Rule = Rule(keywords: seq<string>, cls: string)

  const Rules: seq<Rule> := [
    Rule(["thunderstorm"], "bg-thunder"),
    Rule(["rain"], "bg-rain"),
    Rule(["drizzle"], "bg-drizzle"),
    Rule(["snow"], "bg-snow"),
    Rule(["mist", "fog", "haze"], "bg-fog"),
    Rule(["cloud"], "bg-cloudy"),
    Rule(["clear"], "bg-clear")
  ]

  /** Some keyword occurs in `c`. */
  predicate MatchesAny(c: string, keywords: seq<string>)
  {
    |keywords| > 0 && (Includes(c, keywords[0]) || MatchesAny(c, keywords[1..]))
  }

  /** Index of the first rule that matches, or |rules| when none does. */
  function FirstMatch(rules: seq<Rule>, c: string): (i: nat)
    ensures i <= |rules|
    ensures i < |rules| ==> MatchesAny(c, rules[i].keywords)
    ensures forall j :: 0 <= j < i ==> !MatchesAny(c, rules[j].keywords)
  {
    if |rules| == 0 then 0
    else if MatchesAny(c, rules[0].keywords) then 0
    else 1 + FirstMatch(rules[1..], c)
  }

  function ClassByTable(condition: string): string
  {
    var i := FirstMatch(Rules, ToLower(condition));
    if i < |Rules| then Rules[i].cls else DefaultClass
  }

  /** The if/else chain is the priority table. */
  lemma ClassForIsFirstMatchingRule(condition: string)
    ensures ClassFor(condition) == ClassByTable(condition)
  {
    var c := ToLower(condition);
    assert MatchesAny(c, Rules[0].keywords) <==> Includes(c, "thunderstorm");
    assert MatchesAny(c, Rules[1].keywords) <==> Includes(c, "rain");
    assert MatchesAny(c, Rules[2].keywords) <==> Includes(c, "drizzle");
    assert MatchesAny(c, Rules[3].keywords) <==> Includes(c, "snow");
    assert MatchesAny(c, Rules[4].keywords) <==>
      Includes(c, "mist") || Includes(c, "fog") || Includes(c, "haze") by {
      var kws := Rules[4].keywords;
      assert kws[1..] == ["fog", "haze"] && kws[1..][1..] == ["haze"] && kws[1..][1..][1..] == [];
      assert MatchesAny(c, ["haze"]) <==> Includes(c, "haze");
      assert MatchesAny(c, ["fog", "haze"]) <==> Includes(c, "fog") || Includes(c, "haze");
    }
    assert MatchesAny(c, Rules[5].keywords) <==> Includes(c, "cloud");
    assert MatchesAny(c, Rules[6].keywords) <==> Includes(c, "clear");
  }

  lemma ToLowerIdempotent(s: string)
    ensures ToLower(ToLower(s)) == ToLower(s)
  {
  }

  /** The choice ignores letter case. */
  lemma ClassForIgnoresCase(condition: string)
    ensures ClassFor(ToLower(condition)) == ClassFor(condition)
  {
    ToLowerIdempotent(condition);
  }

  /** `s` with every element of `drop` removed, order kept. */
  function Without(s: seq<string>, drop: seq<string>): (r: seq<string>)
    ensures forall i :: 0 <= i < |r| ==> r[i] in s && r[i] !in drop
    ensures forall i :: 0 <= i < |s| && s[i] !in drop ==> s[i] in r
    ensures NoDuplicates(s) ==> NoDuplicates(r)
  {
    if |s| == 0 then []
    else
      var init, last := s[..|s| - 1], s[|s| - 1];
      assert forall i :: 0 <= i < |init| ==> init[i] == s[i];
      Without(init, drop) + (if last in drop then [] else [last])
  }

  /** `Without` keeps the remaining classes in their original order. */
  lemma {:induction false} WithoutKeepsOrder(s: seq<string>, drop: seq<string>, i: nat, j: nat)
    requires NoDuplicates(s) && i < j < |Without(s, drop)|
    ensures FirstIndex(s, Without(s, drop)[i]) < FirstIndex(s, Without(s, drop)[j])
  {
    var t, x := s[..|s| - 1], s[|s| - 1];
    assert s == t + [x];
    var p, r := Without(t, drop), Without(s, drop);
    assert r == p + (if x in drop then [] else [x]);
    var a, b := r[i], r[j];
    assert a == p[i] && a in t;
    FirstIndexAppend(t, x, a);
    if j < |p| {
      WithoutKeepsOrder(t, drop, i, j);
      assert b == p[j];
      FirstIndexAppend(t, x, b);
    } else {
      assert b == x && x !in t;
      assert FirstIndex(s, b) == |t|;
    }
  }

  /** The class list after `updateBackground(condition)`. */
  function WithBackground(classes: seq<string>, condition: string): seq<string>
  {
    Without(classes, BackgroundClasses) + [ClassFor(condition)]
  }

  /** `icon.endsWith("n")`: the provider marks night icons with a final `n`. */
  predicate IsNightIcon(icon: string)
  {
    |icon| > 0 && icon[|icon| - 1] == 'n'
  }

  /** `document.body`, as far as its classes go. */
  class Body {
    var classes: seq<string>

    /** A class list holds each class once. */
    ghost predicate Valid()
      reads this
    {
      NoDuplicates(classes)
    }

    constructor (initial: seq<string>)
      requires NoDuplicates(initial)
      ensures Valid() && classes == initial
    {
      classes := initial;
    }

    /** `updateBackground(condition)`: `classList.remove` of the nine
        background classes, then `classList.add` of the chosen one. */
    method UpdateBackground(condition: string)
      requires Valid()
      modifies this
      ensures Valid()
      ensures classes == WithBackground(old(classes), condition)
    {
      classes := Without(classes, BackgroundClasses);
      var cls := ClassFor(condition);
      if cls !in classes {
        classes := classes + [cls];
      }
    }

    /** The class part of `updateCurrent`: the background for the
        description, overridden by `className = "bg-night"` for a night
        icon, which replaces every class the body had. */
    method UpdateCurrent(icon: string, description: string)
      requires Valid()
      modifies this
      ensures Valid()
      ensures classes == if IsNightIcon(icon) then [NightClass]
                         else WithBackground(old(classes), description)
    {
      UpdateBackground(description);
      if IsNightIcon(icon) {
        classes := [NightClass];
      }
    }
  }

  /** After `updateBackground` exactly one background class is present,
      the chosen one, at the end of the list. */
  lemma {:induction false} WithBackgroundHasOneBackground(classes: seq<string>, condition: string)
    ensures var r := WithBackground(classes, condition);
      && |r| > 0 && r[|r| - 1] == ClassFor(condition)
      && forall i :: 0 <= i < |r| - 1 ==> r[i] !in BackgroundClasses
  {
    var r, w := WithBackground(classes, condition), Without(classes, BackgroundClasses);
    assert r[..|r| - 1] == w;
    forall i | 0 <= i < |r| - 1 ensures r[i] !in BackgroundClasses {
      assert r[i] == w[i] && w[i] in w;
    }
  }

  /** Classes other than the background ones are kept, in order. */
  lemma {:induction false} WithBackgroundKeepsOtherClasses(classes: seq<string>, condition: string)
    ensures Without(WithBackground(classes, condition), BackgroundClasses)
         == Without(classes, BackgroundClasses)
    ensures forall x :: x !in BackgroundClasses ==>
      (x in WithBackground(classes, condition) <==> x in classes)
  {
    var w := Without(classes, BackgroundClasses);
    var r := w + [ClassFor(condition)];
    assert r[..|r| - 1] == w;
    WithoutOfWithout(classes, BackgroundClasses);
    forall x | x !in BackgroundClasses
      ensures x in r <==> x in classes
    {
      if x in r {
        var i :| 0 <= i < |r| && r[i] == x;
        assert i < |w| && w[i] == x;
      }
      if x in classes {
        var i :| 0 <= i < |classes| && classes[i] == x;
      }
    }
  }

  lemma {:induction false} WithoutOfWithout(s: seq<string>, drop: seq<string>)
    ensures Without(Without(s, drop), drop) == Without(s, drop)
  {
    if |s| > 0 {
      var init, last := s[..|s| - 1], s[|s| - 1];
      WithoutOfWithout(init, drop);
      var w := Without(init, drop);
      assert s[..|s| - 1] == init;
      if last in drop {
        assert Without(s, drop) == w;
      } else {
        assert Without(s, drop) == w + [last];
        var t := w + [last];
        assert t[..|t| - 1] == w && t[|t| - 1] == last;
        assert Without(t, drop) == Without(w, drop) + [last];
      }
    }
  }

  /** `updateBackground` keeps a valid class list and is idempotent. */
  lemma WithBackgroundValidAndIdempotent(classes: seq<string>, condition: string)
    requires NoDuplicates(classes)
    ensures NoDuplicates(WithBackground(classes, condition))
    ensures WithBackground(WithBackground(classes, condition), condition)
         == WithBackground(classes, condition)
  {
    WithBackgroundKeepsOtherClasses(classes, condition);
    var w := Without(classes, BackgroundClasses);
    assert ClassFor(condition) !in w;
  }
}
