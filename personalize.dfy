/** `personalizeMessage` of the campaign route: the template's `{{name}}`,
    `{{email}}`, `{{totalSpends}}` and `{{visitCount}}` placeholders, matched
    without regard to case, are replaced by the customer's fields, in that
    order. */
module Personalization {
  import opened Records
  import opened RuleSemantics
  import Strings

  /** `text.replace(/pat/gi, rep)` for a pattern made of literal characters:
      the text is scanned left to right, each occurrence (up to case) is
      replaced, and scanning resumes just after it, so occurrences never
      overlap. */
  function ReplaceAllCI(text: string, pat: string, rep: string): (r: string)
    requires pat != []
    ensures rep != [] ==> (r == [] <==> text == [])
    decreases |text|
  {
    if |text| < |pat| then text
    else if OccursAt(text, pat, 0) then rep + ReplaceAllCI(text[|pat|..], pat, rep)
    else [text[0]] + ReplaceAllCI(text[1..], pat, rep)
  }

  /** An occurrence in the text after its first character is an occurrence
      in the text. */
  lemma OccursInTail(text: string, pat: string, i: nat)
    requires text != [] && OccursAt(text[1..], pat, i)
    ensures OccursAt(text, pat, i + 1)
  {
    assert text[1..][i..i + |pat|] == text[i + 1..i + 1 + |pat|];
  }

  /** A text in which the pattern does not occur is left as it is. */
  lemma {:induction false} ReplaceAbsent(text: string, pat: string, rep: string)
    requires pat != [] && !ContainsCI(text, pat)
    ensures ReplaceAllCI(text, pat, rep) == text
  {
    if |text| >= |pat| {
      assert !OccursAt(text, pat, 0);
      forall i | 0 <= i <= |text[1..]|
        ensures !OccursAt(text[1..], pat, i)
      {
        if OccursAt(text[1..], pat, i) {
          OccursInTail(text, pat, i);
        }
      }
      ReplaceAbsent(text[1..], pat, rep);
    }
  }

  /** One step of the scan at an occurrence. */
  lemma ReplaceAtMatch(text: string, pat: string, rep: string)
    requires pat != [] && OccursAt(text, pat, 0)
    ensures ReplaceAllCI(text, pat, rep) == rep + ReplaceAllCI(text[|pat|..], pat, rep)
  {
  }

  /** One step of the scan where the pattern does not start. */
  lemma ReplaceAtMiss(text: string, pat: string, rep: string)
    requires pat != [] && |text| >= |pat| && !OccursAt(text, pat, 0)
    ensures ReplaceAllCI(text, pat, rep) == [text[0]] + ReplaceAllCI(text[1..], pat, rep)
  {
  }

  /** The leftmost occurrence is replaced, the text before it is kept, and
      scanning goes on after it. */
  lemma {:induction false} ReplaceLeftmost(a: string, m: string, b: string, pat: string, rep: string)
    requires pat != [] && |m| == |pat| && Strings.Lower(m) == Strings.Lower(pat)
    requires forall i :: 0 <= i < |a| ==> !OccursAt(a + m + b, pat, i)
    ensures ReplaceAllCI(a + m + b, pat, rep) == a + rep + ReplaceAllCI(b, pat, rep)
    decreases |a|
  {
    if a == [] {
      ReplaceAtFront(m, b, pat, rep);
      assert a + m + b == m + b;
    } else {
      var text := a + m + b;
      var tail := a[1..] + m + b;
      assert text[1..] == tail;
      assert !OccursAt(text, pat, 0);
      ReplaceAtMiss(text, pat, rep);
      TailHasNoEarlierOccurrence(a, m, b, pat);
      ReplaceLeftmost(a[1..], m, b, pat, rep);
      var rest := ReplaceAllCI(b, pat, rep);
      assert text[0] == a[0];
      assert ReplaceAllCI(text, pat, rep) == [a[0]] + ReplaceAllCI(tail, pat, rep);
      assert ReplaceAllCI(tail, pat, rep) == a[1..] + rep + rest;
      ConsSplit(a, rep, rest);
    }
  }

  lemma ConsSplit(a: string, x: string, y: string)
    requires a != []
    ensures [a[0]] + (a[1..] + x + y) == a + x + y
  {
    assert [a[0]] + a[1..] == a;
  }

  lemma ReplaceAtFront(m: string, b: string, pat: string, rep: string)
    requires pat != [] && |m| == |pat| && Strings.Lower(m) == Strings.Lower(pat)
    ensures ReplaceAllCI(m + b, pat, rep) == rep + ReplaceAllCI(b, pat, rep)
  {
    var text := m + b;
    assert text[..|pat|] == m;
    assert OccursAt(text, pat, 0);
    assert text[|pat|..] == b;
    ReplaceAtMatch(text, pat, rep);
  }

  lemma TailHasNoEarlierOccurrence(a: string, m: string, b: string, pat: string)
    requires a != []
    requires forall i :: 0 <= i < |a| ==> !OccursAt(a + m + b, pat, i)
    ensures forall i :: 0 <= i < |a[1..]| ==> !OccursAt(a[1..] + m + b, pat, i)
  {
    var text := a + m + b;
    assert text[1..] == a[1..] + m + b;
    forall i | 0 <= i < |a[1..]|
      ensures !OccursAt(a[1..] + m + b, pat, i)
    {
      if OccursAt(a[1..] + m + b, pat, i) {
        OccursInTail(text, pat, i);
      }
    }
  }

  const NameTag := "{{name}}"
  const EmailTag := "{{email}}"
  const SpendsTag := "{{totalSpends}}"
  const VisitsTag := "{{visitCount}}"

  /** `personalizeMessage(template, customer)`. A template that is not
      empty gives a message that is not empty, for a customer whose name and
      email are not empty. */
  function Personalize(template: string, c: Customer): (r: string)
    ensures template != [] && c.name != [] && c.email != [] ==> r != []
  {
    var t1 := ReplaceAllCI(template, NameTag, c.name);
    var t2 := ReplaceAllCI(t1, EmailTag, c.email);
    var t3 := ReplaceAllCI(t2, SpendsTag, Strings.DecimalString(c.totalSpends));
    ReplaceAllCI(t3, VisitsTag, Strings.DecimalString(c.visitCount))
  }

  /** A template without placeholders is sent as it is. */
  lemma NoPlaceholders(template: string, c: Customer)
    requires !ContainsCI(template, NameTag) && !ContainsCI(template, EmailTag)
    requires !ContainsCI(template, SpendsTag) && !ContainsCI(template, VisitsTag)
    ensures Personalize(template, c) == template
  {
    ReplaceAbsent(template, NameTag, c.name);
    ReplaceAbsent(template, EmailTag, c.email);
    ReplaceAbsent(template, SpendsTag, Strings.DecimalString(c.totalSpends));
    ReplaceAbsent(template, VisitsTag, Strings.DecimalString(c.visitCount));
  }

  /** A template written as `parts[0] + tags[0] + parts[1] + ... + parts[n]`. */
  function Fill(parts: seq<string>, tags: seq<string>): string
    requires |parts| == |tags| + 1
    decreases |tags|
  {
    if tags == [] then parts[0] else parts[0] + tags[0] + Fill(parts[1..], tags[1..])
  }

  /** The parts with `sep` between each two of them. */
  function Join(parts: seq<string>, sep: string): string
    requires parts != []
    decreases |parts|
  {
    if |parts| == 1 then parts[0] else parts[0] + sep + Join(parts[1..], sep)
  }

  /** `{{name}}` written in some mix of upper and lower case. */
  predicate NameTagVariant(m: string) {
    |m| == |NameTag| && Strings.Lower(m) == Strings.Lower(NameTag)
  }

  /** A placeholder cannot start at a character other than `{`. */
  lemma NoOccurrenceWithoutBrace(text: string, pat: string, i: int)
    requires pat != [] && pat[0] == '{' && 0 <= i < |text| && text[i] != '{'
    ensures !OccursAt(text, pat, i)
  {
  }

  /** A text without `{` holds no placeholder. */
  lemma BraceFreeHasNoTag(text: string, pat: string)
    requires pat != [] && pat[0] == '{' && '{' !in text
    ensures !ContainsCI(text, pat)
  {
    forall i | 0 <= i <= |text| && OccursAt(text, pat, i)
      ensures false
    {
      NoOccurrenceWithoutBrace(text, pat, i);
    }
  }

  lemma {:induction false} JoinBraceFree(parts: seq<string>, sep: string)
    requires parts != [] && '{' !in sep
    requires forall j :: 0 <= j < |parts| ==> '{' !in parts[j]
    ensures '{' !in Join(parts, sep)
    decreases |parts|
  {
    if |parts| > 1 {
      JoinBraceFree(parts[1..], sep);
    }
  }

  /** The name pass replaces every `{{name}}`, whatever its case, by the
      name, and keeps the text between them. */
  lemma {:induction false} NamePass(parts: seq<string>, tags: seq<string>, name: string)
    requires |parts| == |tags| + 1
    requires forall j :: 0 <= j < |parts| ==> '{' !in parts[j]
    requires forall j :: 0 <= j < |tags| ==> NameTagVariant(tags[j])
    ensures ReplaceAllCI(Fill(parts, tags), NameTag, name) == Join(parts, name)
    decreases |tags|
  {
    if tags == [] {
      BraceFreeHasNoTag(parts[0], NameTag);
      ReplaceAbsent(parts[0], NameTag, name);
    } else {
      var rest := Fill(parts[1..], tags[1..]);
      var text := parts[0] + tags[0] + rest;
      forall i | 0 <= i < |parts[0]|
        ensures !OccursAt(text, NameTag, i)
      {
        assert text[i] == parts[0][i];
        NoOccurrenceWithoutBrace(text, NameTag, i);
      }
      ReplaceLeftmost(parts[0], tags[0], rest, NameTag, name);
      NamePass(parts[1..], tags[1..], name);
    }
  }

  /** A template whose only placeholders are `{{name}}`, in any case, and
      whose other text holds no `{`: for a customer whose name holds no `{`,
      every placeholder becomes the name and the rest of the text is kept. */
  lemma NameOnlyTemplate(parts: seq<string>, tags: seq<string>, c: Customer)
    requires |parts| == |tags| + 1
    requires forall j :: 0 <= j < |parts| ==> '{' !in parts[j]
    requires forall j :: 0 <= j < |tags| ==> NameTagVariant(tags[j])
    requires '{' !in c.name
    ensures Personalize(Fill(parts, tags), c) == Join(parts, c.name)
  {
    NamePass(parts, tags, c.name);
    var t := Join(parts, c.name);
    JoinBraceFree(parts, c.name);
    BraceFreeHasNoTag(t, EmailTag);
    BraceFreeHasNoTag(t, SpendsTag);
    BraceFreeHasNoTag(t, VisitsTag);
    ReplaceAbsent(t, EmailTag, c.email);
    ReplaceAbsent(t, SpendsTag, Strings.DecimalString(c.totalSpends));
    ReplaceAbsent(t, VisitsTag, Strings.DecimalString(c.visitCount));
  }

  /** The name placeholder is matched whatever its case, and a message
      shorter than the remaining placeholders is left alone:
      "Hi {{NAME}}!" becomes "Hi Ann!" for a customer named Ann. */
  lemma GreetingExample(c: Customer)
    requires c.name == "Ann"
    ensures Personalize("Hi {{NAME}}!", c) == "Hi " + "Ann" + "!"
  {
    GreetingName("Hi {{NAME}}!", "Hi ", "{{NAME}}", "!");
    var t := "Hi " + "Ann" + "!";
    assert ReplaceAllCI(t, EmailTag, c.email) == t;
    assert ReplaceAllCI(t, SpendsTag, Strings.DecimalString(c.totalSpends)) == t;
    assert ReplaceAllCI(t, VisitsTag, Strings.DecimalString(c.visitCount)) == t;
  }

  /** The passes run one after another, so a placeholder that an earlier
      pass writes into the text is replaced by a later pass: a customer
      whose name is "{{email}}" gets their email in place of `{{name}}`. */
  lemma LaterPassSeesEarlierText(c: Customer)
    requires c.name == EmailTag && c.email == "ann@x.io"
    ensures Personalize(NameTag, c) == c.email
  {
    WholeTagReplaced(NameTag, c.name);
    WholeTagReplaced(EmailTag, c.email);
    var rest := ReplaceAllCI(c.email, SpendsTag, Strings.DecimalString(c.totalSpends));
    assert |c.email| < |SpendsTag|;
    assert rest == c.email;
  }

  /** A text that is exactly the pattern becomes the replacement. */
  lemma WholeTagReplaced(tag: string, rep: string)
    requires tag != []
    ensures ReplaceAllCI(tag, tag, rep) == rep
  {
    assert OccursAt(tag, tag, 0) by {
      assert tag[0..|tag|] == tag;
    }
    ReplaceAtMatch(tag, tag, rep);
    assert tag[|tag|..] == [];
    assert rep + [] == rep;
  }

  lemma GreetingName(text: string, prefix: string, tag: string, rest: string)
    requires prefix == "Hi " && tag == "{{NAME}}" && rest == "!" && text == prefix + tag + rest
    ensures ReplaceAllCI(text, NameTag, "Ann") == prefix + "Ann" + rest
  {
    NoTagInGreeting(text, prefix);
    UpperTagMatches(tag);
    ReplaceLeftmost(prefix, tag, rest, NameTag, "Ann");
    assert ReplaceAllCI(rest, NameTag, "Ann") == rest;
  }

  /** No name placeholder starts inside "Hi ". */
  lemma NoTagInGreeting(text: string, prefix: string)
    requires prefix == "Hi " && |text| >= |prefix| && text[..|prefix|] == prefix
    ensures forall i :: 0 <= i < |prefix| ==> !OccursAt(text, NameTag, i)
  {
    forall i | 0 <= i < |prefix|
      ensures !OccursAt(text, NameTag, i)
    {
      if 0 <= i <= |text| - |NameTag| {
        assert text[i] == prefix[i];
        var lowered := Strings.Lower(text[i..i + |NameTag|]);
        assert lowered[0] == Strings.LowerChar(text[i]);
        assert Strings.Lower(NameTag)[0] == '{';
      }
    }
  }

  lemma UpperTagMatches(tag: string)
    requires tag == "{{NAME}}"
    ensures |tag| == |NameTag| && Strings.Lower(tag) == Strings.Lower(NameTag)
  {
    assert tag[2] as int == NameTag[2] as int - 32;
    assert tag[3] as int == NameTag[3] as int - 32;
    assert tag[4] as int == NameTag[4] as int - 32;
    assert tag[5] as int == NameTag[5] as int - 32;
    LowerAgrees(tag, NameTag);
  }

  /** Strings that agree character by character up to case agree once
      lowered. */
  lemma LowerAgrees(a: string, b: string)
    requires |a| == |b| && forall i :: 0 <= i < |a| ==> a[i] == b[i] || (a[i] as int == b[i] as int - 32 && 'a' <= b[i] <= 'z')
    ensures Strings.Lower(a) == Strings.Lower(b)
  {
    var la, lb := Strings.Lower(a), Strings.Lower(b);
    forall i | 0 <= i < |a|
      ensures la[i] == lb[i]
    {
    }
  }
}
