/** The string helpers of utils.ts: the camelCase/dash-case rewrites that name
    attributes and events, and the attribute-to-input dictionary built from a
    component's declared inputs. */
module Utils {
  import opened Wrappers
  import opened Framework
  import OrderedMap

  predicate IsUpper(c: char) { 'A' <= c <= 'Z' }
  predicate IsLower(c: char) { 'a' <= c <= 'z' }
  predicate IsDigit(c: char) { '0' <= c <= '9' }

  /** `char.toLowerCase()` on a character the pattern `[A-Z]` matched. */
  function ToLower(c: char): (r: char)
    requires IsUpper(c)
    ensures IsLower(r)
    ensures r as int - 'a' as int == c as int - 'A' as int
  {
    (c as int + 32) as char
  }

  /** `char.toUpperCase()` on a character the pattern `[a-z\d]` matched: letters are
      raised, digits are unchanged. */
  function ToUpper(c: char): (r: char)
    requires IsLower(c) || IsDigit(c)
    ensures IsUpper(r) || IsDigit(r)
    ensures IsDigit(c) ==> r == c
    ensures IsLower(c) ==> IsUpper(r) && ToLower(r) == c
  {
    if IsLower(c) then (c as int - 32) as char else c
  }

  function CountUpper(s: string): nat {
    if s == [] then 0 else (if IsUpper(s[0]) then 1 else 0) + CountUpper(s[1..])
  }

  /** `camelToDashCase`: `input.replace(/[A-Z]/g, c => '-' + c.toLowerCase())`. */
  function CamelToDashCase(s: string): (r: string)
    ensures |r| == |s| + CountUpper(s)
    ensures forall i :: 0 <= i < |r| ==> !IsUpper(r[i])
  {
    if s == [] then []
    else (if IsUpper(s[0]) then ['-', ToLower(s[0])] else [s[0]]) + CamelToDashCase(s[1..])
  }

  /** An uppercase letter becomes a dash and its lowercase form; any other character
      is kept. */
  lemma CamelToDashCaseChar(c: char)
    ensures IsUpper(c) ==> CamelToDashCase([c]) == ['-', ToLower(c)]
    ensures !IsUpper(c) ==> CamelToDashCase([c]) == [c]
  {
    assert [c][1..] == [];
  }

  /** The rewrite works character by character: it distributes over concatenation. */
  lemma {:induction false} CamelToDashCaseAppend(a: string, b: string)
    ensures CamelToDashCase(a + b) == CamelToDashCase(a) + CamelToDashCase(b)
  {
    if a == [] {
      assert a + b == b;
    } else {
      assert (a + b)[0] == a[0] && (a + b)[1..] == a[1..] + b;
      CamelToDashCaseAppend(a[1..], b);
    }
  }

  /** A string without uppercase letters is left unchanged, so the rewrite is idempotent. */
  lemma {:induction false} CamelToDashCaseIdentity(s: string)
    requires forall i :: 0 <= i < |s| ==> !IsUpper(s[i])
    ensures CamelToDashCase(s) == s
  {
    if s != [] {
      CamelToDashCaseIdentity(s[1..]);
    }
  }

  lemma CamelToDashCaseIdempotent(s: string)
    ensures CamelToDashCase(CamelToDashCase(s)) == CamelToDashCase(s)
  {
    CamelToDashCaseIdentity(CamelToDashCase(s));
  }

  /** The input `someString` is observed as the attribute `some-string`. */
  lemma SomeStringAttribute()
    ensures CamelToDashCase("someString") == "some-string"
  {
    var a, b := "some", "tring";
    calc {
      CamelToDashCase("someString");
      { assert "someString" == a + (['S'] + b); }
      CamelToDashCase(a + (['S'] + b));
      { CamelToDashCaseAppend(a, ['S'] + b); }
      CamelToDashCase(a) + CamelToDashCase(['S'] + b);
      { CamelToDashCaseAppend(['S'], b); }
      CamelToDashCase(a) + (CamelToDashCase(['S']) + CamelToDashCase(b));
      { CamelToDashCaseIdentity(a); CamelToDashCaseIdentity(b); assert CamelToDashCase(['S']) == ['-', 's']; }
      a + (['-', 's'] + b);
      { assert "some-string" == a + (['-', 's'] + b); }
      "some-string";
    }
  }

  /** The characters the pattern `-([a-z\d])` accepts after the dash. */
  predicate IsLowerOrDigit(c: char) { IsLower(c) || IsDigit(c) }

  /** `kebabToCamelCase`: `input.replace(/-([a-z\d])/g, (_, c) => c.toUpperCase())`,
      scanning left to right over non-overlapping matches. */
  function KebabToCamelCase(s: string): (r: string)
    ensures |r| <= |s|
  {
    if s == [] then []
    else if s[0] == '-' && |s| >= 2 && IsLowerOrDigit(s[1]) then [ToUpper(s[1])] + KebabToCamelCase(s[2..])
    else [s[0]] + KebabToCamelCase(s[1..])
  }

  /** Without dashes there is nothing to rewrite. */
  lemma {:induction false} KebabToCamelCaseIdentity(s: string)
    requires '-' !in s
    ensures KebabToCamelCase(s) == s
  {
    if s != [] {
      assert s[0] in s;
      KebabToCamelCaseIdentity(s[1..]);
    }
  }

  /** A single character is its own rewrite: one character never matches. */
  lemma KebabToCamelCaseChar(c: char)
    ensures KebabToCamelCase([c]) == [c]
  {
  }

  /** A dash followed by a lowercase letter or a digit becomes that character raised. */
  lemma KebabToCamelCaseDash(c: char)
    requires IsLowerOrDigit(c)
    ensures KebabToCamelCase(['-', c]) == [ToUpper(c)]
  {
    assert ['-', c][2..] == [];
  }

  /** The rewrite distributes over concatenation unless a match straddles the seam
      (`a` ends with a dash and `b` starts with a lowercase letter or a digit). With the
      two lemmas above, this fixes the result for every string. */
  lemma {:induction false} KebabToCamelCaseAppend(a: string, b: string)
    requires !(a != [] && a[|a| - 1] == '-' && b != [] && IsLowerOrDigit(b[0]))
    ensures KebabToCamelCase(a + b) == KebabToCamelCase(a) + KebabToCamelCase(b)
  {
    if a == [] {
      assert a + b == b;
    } else {
      var k, head := KebabHeadStep(a, b);
      KebabToCamelCaseAppend(a[k..], b);
      AppendAssoc(head, KebabToCamelCase(a[k..]), KebabToCamelCase(b));
    }
  }

  /** The first step of the scan over `a + b` is the first step of the scan over `a`
      when no match straddles the seam: both emit `head` and consume `k` characters. */
  lemma KebabHeadStep(a: string, b: string) returns (k: nat, head: string)
    requires a != []
    requires !(a[|a| - 1] == '-' && b != [] && IsLowerOrDigit(b[0]))
    ensures 1 <= k <= |a|
    ensures a[k..] != [] ==> a[k..][|a[k..]| - 1] == a[|a| - 1]
    ensures KebabToCamelCase(a) == head + KebabToCamelCase(a[k..])
    ensures KebabToCamelCase(a + b) == head + KebabToCamelCase(a[k..] + b)
  {
    var s := a + b;
    var matched := a[0] == '-' && |a| >= 2 && IsLowerOrDigit(a[1]);
    k := if matched then 2 else 1;
    head := if matched then [ToUpper(a[1])] else [a[0]];
    assert s[0] == a[0];
    assert |a| >= 2 ==> s[1] == a[1];
    assert |a| == 1 && b != [] ==> s[1] == b[0];
    assert s[k..] == a[k..] + b;
  }

  lemma AppendAssoc(x: string, y: string, z: string)
    ensures x + (y + z) == (x + y) + z
  {
  }

  /** What the pattern leaves alone and what it rewrites: a digit after a dash is kept
      without its dash, a dash before an uppercase letter stays, and of two dashes only
      the second one starts a match. */
  lemma KebabToCamelCaseSamples()
    ensures KebabToCamelCase("-1") == "1"
    ensures KebabToCamelCase("a-B") == "a-B"
    ensures KebabToCamelCase("--a") == "-A"
  {
    KebabToCamelCaseDash('1');
    assert KebabToCamelCase("a-B") == ['a'] + KebabToCamelCase("-B");
    assert KebabToCamelCase("-B") == ['-'] + KebabToCamelCase("B");
    assert KebabToCamelCase("--a") == ['-'] + KebabToCamelCase("-a");
    KebabToCamelCaseDash('a');
  }

  /** The first character of the rewrite: a dash survives only where no match starts. */
  lemma KebabToCamelCaseHead(s: string)
    requires s != []
    ensures KebabToCamelCase(s) != []
    ensures KebabToCamelCase(s)[0] ==
            if s[0] == '-' && |s| >= 2 && IsLowerOrDigit(s[1]) then ToUpper(s[1]) else s[0]
  {
  }

  /** No dash in `r` is followed by a lowercase letter. */
  predicate NoDashBeforeLower(r: string) {
    forall i :: 0 <= i < |r| - 1 && r[i] == '-' ==> !IsLower(r[i + 1])
  }

  /** Putting `c` in front of such a string keeps the property unless `c` is a dash
      and the string starts with a lowercase letter. */
  lemma NoDashBeforeLowerCons(c: char, t: string)
    requires NoDashBeforeLower(t)
    requires c == '-' && t != [] ==> !IsLower(t[0])
    ensures NoDashBeforeLower([c] + t)
  {
    var r := [c] + t;
    forall i | 0 <= i < |r| - 1 && r[i] == '-' ensures !IsLower(r[i + 1]) {
      assert r[i + 1] == t[i];
      if i > 0 {
        assert t[i - 1] == r[i];
      }
    }
  }

  /** Every dash followed by a lowercase letter was rewritten: none is left in the output. */
  lemma {:induction false} KebabToCamelCaseNoDashLower(s: string)
    ensures NoDashBeforeLower(KebabToCamelCase(s))
  {
    if s == [] {
    } else if s[0] == '-' && |s| >= 2 && IsLowerOrDigit(s[1]) {
      KebabToCamelCaseNoDashLower(s[2..]);
      NoDashBeforeLowerCons(ToUpper(s[1]), KebabToCamelCase(s[2..]));
    } else {
      var t := KebabToCamelCase(s[1..]);
      KebabToCamelCaseNoDashLower(s[1..]);
      if s[0] == '-' && |s| >= 2 {
        KebabToCamelCaseHead(s[1..]);
        assert s[1..][0] == s[1];
        if s[1] == '-' && |s| >= 3 {
          assert s[1..][1] == s[2];
        }
      }
      NoDashBeforeLowerCons(s[0], t);
    }
  }

  lemma UpperLowerRoundTrip(c: char)
    requires IsUpper(c)
    ensures ToUpper(ToLower(c)) == c
  {
  }

  /** For a string without dashes, dash-casing and then camel-casing gives the string back. */
  lemma {:induction false} DashCaseRoundTrip(s: string)
    requires '-' !in s
    ensures KebabToCamelCase(CamelToDashCase(s)) == s
  {
    if s != [] {
      assert s[0] in s && s == [s[0]] + s[1..];
      DashCaseRoundTrip(s[1..]);
      var t := CamelToDashCase(s[1..]);
      if IsUpper(s[0]) {
        var d := ['-', ToLower(s[0])] + t;
        assert CamelToDashCase(s) == d;
        assert d[2..] == t;
        UpperLowerRoundTrip(s[0]);
        assert KebabToCamelCase(d) == [s[0]] + KebabToCamelCase(t);
      } else {
        var d := [s[0]] + t;
        assert CamelToDashCase(s) == d;
        assert d[1..] == t;
        assert KebabToCamelCase(d) == [s[0]] + KebabToCamelCase(t);
      }
    }
  }

  /** The value stored per attribute: the input's property name and its transform. */
  type AttributeInput = (string, Option<nat>)

  function AttributeKey(input: InputDesc): string {
    CamelToDashCase(input.templateName)
  }

  /** The dictionary `getDefaultAttributeToPropertyInputs` returns, defined input by input
      in declaration order (a later input with the same attribute overwrites the entry). */
  function AttributeInputs(inputs: seq<InputDesc>): OrderedMap.Entries<AttributeInput>
  {
    if inputs == [] then []
    else
      var last := inputs[|inputs| - 1];
      OrderedMap.Put(AttributeInputs(inputs[..|inputs| - 1]), AttributeKey(last), (last.propName, last.transform))
  }

  /** `getDefaultAttributeToPropertyInputs`: fills the dictionary in a `forEach` loop. */
  method GetDefaultAttributeToPropertyInputs(inputs: seq<InputDesc>)
      returns (attributeToPropertyInputs: OrderedMap.Entries<AttributeInput>)
    ensures attributeToPropertyInputs == AttributeInputs(inputs)
    ensures OrderedMap.UniqueKeys(attributeToPropertyInputs)
  {
    attributeToPropertyInputs := [];
    for i := 0 to |inputs|
      invariant attributeToPropertyInputs == AttributeInputs(inputs[..i])
      invariant OrderedMap.UniqueKeys(attributeToPropertyInputs)
    {
      var input := inputs[i];
      OrderedMap.PutUnique(attributeToPropertyInputs, AttributeKey(input), (input.propName, input.transform));
      attributeToPropertyInputs := OrderedMap.Put(attributeToPropertyInputs, AttributeKey(input), (input.propName, input.transform));
      assert inputs[..i + 1][..i] == inputs[..i];
    }
    assert inputs[..|inputs|] == inputs;
  }

  /** There is exactly one key per distinct dash-cased template name. */
  lemma {:induction false} AttributeInputsKeys(inputs: seq<InputDesc>, k: string)
    ensures OrderedMap.UniqueKeys(AttributeInputs(inputs))
    ensures k in OrderedMap.KeysOf(AttributeInputs(inputs)) <==>
            exists j :: 0 <= j < |inputs| && AttributeKey(inputs[j]) == k
  {
    if inputs != [] {
      var n := |inputs| - 1;
      var init := inputs[..n];
      var last := inputs[n];
      var before := AttributeInputs(init);
      AttributeInputsKeys(init, k);
      AttributeInputsSnoc(inputs, k);
      OrderedMap.PutUnique(before, AttributeKey(last), (last.propName, last.transform));
      OrderedMap.PutKeys(before, AttributeKey(last), (last.propName, last.transform));
    }
  }

  /** Some input has attribute `k`. */
  predicate Carries(inputs: seq<InputDesc>, k: string) {
    exists j :: 0 <= j < |inputs| && AttributeKey(inputs[j]) == k
  }

  /** The inputs that carry attribute `k`, split at the last input. */
  lemma AttributeInputsSnoc(inputs: seq<InputDesc>, k: string)
    requires inputs != []
    ensures Carries(inputs, k) <==> Carries(inputs[..|inputs| - 1], k) || AttributeKey(inputs[|inputs| - 1]) == k
  {
    var n := |inputs| - 1;
    var init := inputs[..n];
    if exists j :: 0 <= j < n && AttributeKey(init[j]) == k {
      var j :| 0 <= j < n && AttributeKey(init[j]) == k;
      assert inputs[j] == init[j];
    }
    if exists j :: 0 <= j < |inputs| && AttributeKey(inputs[j]) == k {
      var j :| 0 <= j < |inputs| && AttributeKey(inputs[j]) == k;
      if j < n {
        assert init[j] == inputs[j];
      }
    }
  }

  /** Each attribute maps to the property and transform of the LAST input that has it. */
  lemma {:induction false} AttributeInputsLastWins(inputs: seq<InputDesc>, j: nat)
    requires j < |inputs|
    requires forall l :: j < l < |inputs| ==> AttributeKey(inputs[l]) != AttributeKey(inputs[j])
    ensures OrderedMap.Get(AttributeInputs(inputs), AttributeKey(inputs[j]))
            == Some((inputs[j].propName, inputs[j].transform))
  {
    var n := |inputs| - 1;
    if j < n {
      var init := inputs[..n];
      assert init[j] == inputs[j];
      forall l | j < l < |init| ensures AttributeKey(init[l]) != AttributeKey(init[j]) {
        assert init[l] == inputs[l];
      }
      AttributeInputsLastWins(init, j);
    }
  }
}
