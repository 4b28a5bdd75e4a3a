/** The counter-based class-name generator of src/ThemeProvider.js
    (`createGenerateClassName`): every generator owns a rule counter that
    starts at 0 and goes up by one on each call, and the counter's new value
    ends the class name it builds. */
module ThemeProvider {
  import opened Js

  /** The name built for the n-th rule: `[sheetName-]key-tr-n`, or
      `[sheetName-]tr-n` for a rule without a key. An empty `key` stands for a
      missing one; `sheet` is the sheet's `options.name` when a sheet is
      given, and an empty name adds no prefix. */
  function ClassName(key: string, sheet: Option<string>, n: nat): string {
    var str := if key != "" then key + "-tr-" + NatToString(n) else "tr-" + NatToString(n);
    if sheet.Some? && sheet.value != "" then sheet.value + "-" + str else str
  }

  /** The everything-before-the-counter part of a class name, without the
      final `-`. */
  function Stem(key: string, sheet: Option<string>): string {
    var base := if key != "" then key + "-tr" else "tr";
    if sheet.Some? && sheet.value != "" then sheet.value + "-" + base else base
  }

  lemma ClassNameShape(key: string, sheet: Option<string>, n: nat)
    ensures ClassName(key, sheet, n) == Stem(key, sheet) + "-" + NatToString(n)
  {
    var d := NatToString(n);
    var base := if key != "" then key + "-tr" else "tr";
    var str := if key != "" then key + "-tr-" + d else "tr-" + d;
    assert str == (base + "-") + d by {
      if key != "" {
        AppendAssociative(key, "-tr", "-");
        assert "-tr" + "-" == "-tr-";
      }
    }
    if sheet.Some? && sheet.value != "" {
      var p := sheet.value + "-";
      AppendAssociative(p, base, "-");
      AppendAssociative(p, base + "-", d);
    }
  }

  /** The longest run of decimal digits that ends `s`. */
  function DigitSuffix(s: string): string {
    if s == [] || !IsDigit(s[|s| - 1]) then [] else DigitSuffix(s[..|s| - 1]) + [s[|s| - 1]]
  }

  lemma {:induction false} DigitSuffixAfterDash(x: string, d: string)
    requires AllDigits(d)
    ensures DigitSuffix(x + "-" + d) == d
    decreases |d|
  {
    var s := x + "-" + d;
    if d == [] {
      assert s[|s| - 1] == '-';
    } else {
      var d' := d[..|d| - 1];
      assert s[..|s| - 1] == x + "-" + d';
      DigitSuffixAfterDash(x, d');
      assert d == d' + [d[|d| - 1]];
    }
  }

  /** The counter can be read back off a class name: names built from
      different counter values differ, whatever the keys and sheets. */
  lemma ClassNameDeterminesCounter(key1: string, sheet1: Option<string>, n1: nat,
                                   key2: string, sheet2: Option<string>, n2: nat)
    requires ClassName(key1, sheet1, n1) == ClassName(key2, sheet2, n2)
    ensures n1 == n2
  {
    ClassNameShape(key1, sheet1, n1);
    ClassNameShape(key2, sheet2, n2);
    DigitSuffixAfterDash(Stem(key1, sheet1), NatToString(n1));
    DigitSuffixAfterDash(Stem(key2, sheet2), NatToString(n2));
    NatToStringInjective(n1, n2);
  }

  /** One generator returned by `createGenerateClassName`. */
  class ClassNameGenerator {
    var ruleCounter: nat

    /** `createGenerateClassName()`: a new generator whose counter is 0. */
    constructor ()
      ensures ruleCounter == 0
    {
      ruleCounter := 0;
    }

    /** `generateClassName(rule, sheet)`: bump the counter, then build the name
        from its new value. */
    method GenerateClassName(key: string, sheet: Option<string>) returns (r: string)
      modifies this
      ensures ruleCounter == old(ruleCounter) + 1
      ensures r == ClassName(key, sheet, ruleCounter)
    {
      ruleCounter := ruleCounter + 1;
      var str: string;
      if key != "" {
        str := key + "-tr-" + NatToString(ruleCounter);
      } else {
        str := "tr-" + NatToString(ruleCounter);
      }
      if sheet.Some? && sheet.value != "" {
        return sheet.value + "-" + str;
      }
      return str;
    }
  }

  /** Two calls on one generator never give the same name. */
  method SuccessiveNames(key1: string, sheet1: Option<string>, key2: string, sheet2: Option<string>)
      returns (first: string, second: string)
    ensures first == ClassName(key1, sheet1, 1) && second == ClassName(key2, sheet2, 2)
    ensures first != second
  {
    var g := new ClassNameGenerator();
    first := g.GenerateClassName(key1, sheet1);
    second := g.GenerateClassName(key2, sheet2);
    if first == second {
      ClassNameDeterminesCounter(key1, sheet1, 1, key2, sheet2, 2);
    }
  }

  /** Generators do not share a counter: a fresh one starts over at 1 however
      many names another has handed out. */
  method IndependentGenerators(key: string, sheet: Option<string>) returns (a: string, b: string)
    ensures a == ClassName(key, sheet, 1) && b == ClassName(key, sheet, 1)
  {
    var g1 := new ClassNameGenerator();
    var g2 := new ClassNameGenerator();
    a := g1.GenerateClassName(key, sheet);
    var _ := g1.GenerateClassName(key, sheet);
    b := g2.GenerateClassName(key, sheet);
  }

  /** Two worked names: a keyed rule of a named sheet, and a bare rule. */
  lemma ClassNameExample()
    ensures ClassName("button", Some("MuiButton"), 3) == "MuiButton-button-tr-3"
    ensures ClassName("", None, 12) == "tr-12"
  {
    assert NatToString(3) == "3";
    assert NatToString(12) == NatToString(1) + [DigitChar(2)];
  }
}
