/**
  The two form parsers of src/main.rs: the registration form posted in the
  registration channel ("Name: <text>, Age: <text>") and the manual-review form
  posted in the manual channel ("Manual: <text>"), modelled as written.
 */
module Forms {
  import opened Wrappers
  import opened RustStr

  const NAME_LABEL: string := "Name:"
  const AGE_LABEL: string := "Age:"
  const MANUAL_LABEL: string := "Manual:"

  /** One form field: every leading copy of `tag` stripped, then whitespace trimmed. */
  function Field(segment: string, tag: string): (f: string)
    requires tag != []
    ensures NoOuterWhitespace(f)
  {
    Trim(TrimStartMatches(segment, tag))
  }

  /** A field holds only characters of its piece. */
  lemma FieldChars(segment: string, tag: string, c: char)
    requires tag != []
    ensures c in Field(segment, tag) ==> c in segment
  {
    TrimStartMatchesChars(segment, tag, c);
    TrimChars(TrimStartMatches(segment, tag), c);
  }

  /**
    `parse_form`: `split(',')` must give exactly two pieces; the first is the name
    and the second the age, each read by `Field` with its own tag. The tag is
    only stripped where it stands at the very start of its piece.
   */
  function ParseForm(content: string): (r: Option<(string, string)>)
    ensures r.Some? <==> multiset(content)[','] == 1
    ensures r.Some? ==> NoOuterWhitespace(r.value.0) && NoOuterWhitespace(r.value.1)
    ensures r.Some? ==> ',' !in r.value.0 && ',' !in r.value.1
  {
    var parts := Split(content, ',');
    if |parts| == 2 then
      var name := Field(parts[0], NAME_LABEL);
      var age := Field(parts[1], AGE_LABEL);
      FieldChars(parts[0], NAME_LABEL, ',');
      FieldChars(parts[1], AGE_LABEL, ',');
      Some((name, age))
    else
      None
  }

  /** Which piece of the content each field comes from: the text before and after its one comma. */
  lemma ParseFormSegments(content: string)
    requires multiset(content)[','] == 1
    ensures ',' in content
    ensures ParseForm(content) == Some((Field(content[..IndexOf(content, ',')], NAME_LABEL),
                                        Field(content[IndexOf(content, ',') + 1..], AGE_LABEL)))
  {
    SplitOnce(content, ',');
  }

  /** A field is the text between its whitespace padding, once any leading run of labels is gone. */
  lemma {:induction false} FieldOf(tag: string, k: nat, pre: string, text: string, post: string)
    requires tag != [] && AllWhitespace(pre) && AllWhitespace(post) && NoOuterWhitespace(text)
    requires !StartsWith(pre + text + post, tag)
    ensures Field(Repeat(tag, k) + (pre + text + post), tag) == text
  {
    TrimStartMatchesRepeat(tag, k, pre + text + post);
    TrimPadded(pre, text, post);
  }

  /** A piece as a user would write it: labels, whitespace, the value, whitespace. */
  function Labelled(tag: string, k: nat, pre: string, text: string, post: string): string {
    Repeat(tag, k) + (pre + text + post)
  }

  lemma LabelledSucc(tag: string, k: nat, pre: string, text: string, post: string)
    ensures Labelled(tag, k + 1, pre, text, post) == tag + Labelled(tag, k, pre, text, post)
    ensures StartsWith(Labelled(tag, k + 1, pre, text, post), tag)
  {
  }

  /**
    A registration form: labels (as many as written) directly at the start of each
    piece, whitespace around the values, one comma. Parsing gives back the values.
   */
  lemma ParseFormOf(k: nat, pre1: string, name: string, post1: string,
                    j: nat, pre2: string, age: string, post2: string)
    requires AllWhitespace(pre1) && AllWhitespace(post1) && AllWhitespace(pre2) && AllWhitespace(post2)
    requires NoOuterWhitespace(name) && NoOuterWhitespace(age)
    requires ',' !in name && ',' !in age
    requires !StartsWith(pre1 + name + post1, NAME_LABEL) && !StartsWith(pre2 + age + post2, AGE_LABEL)
    ensures ParseForm(Labelled(NAME_LABEL, k, pre1, name, post1) + ","
                      + Labelled(AGE_LABEL, j, pre2, age, post2)) == Some((name, age))
  {
    var first := Labelled(NAME_LABEL, k, pre1, name, post1);
    var second := Labelled(AGE_LABEL, j, pre2, age, post2);
    assert first + "," + second == first + [','] + second;
    NoCommaInLabelled(NAME_LABEL, k, pre1, name, post1);
    NoCommaInLabelled(AGE_LABEL, j, pre2, age, post2);
    OneComma(first, second);
    ParseFormSegments(first + [','] + second);
    FieldOf(NAME_LABEL, k, pre1, name, post1);
    FieldOf(AGE_LABEL, j, pre2, age, post2);
  }

  /** Two comma-free pieces joined by a comma hold one comma, at the join. */
  lemma OneComma(first: string, second: string)
    requires ',' !in first && ',' !in second
    ensures multiset(first + [','] + second)[','] == 1
    ensures ',' in first + [','] + second
    ensures IndexOf(first + [','] + second, ',') == |first|
    ensures (first + [','] + second)[..|first|] == first
    ensures (first + [','] + second)[|first| + 1..] == second
  {
    var s := first + [','] + second;
    assert multiset(s) == multiset(first) + multiset{','} + multiset(second);
    assert s[|first|] == ',';
    assert s[..|first|] == first;
  }

  lemma NoCommaInLabelled(tag: string, k: nat, pre: string, text: string, post: string)
    requires ',' !in tag && AllWhitespace(pre) && AllWhitespace(post) && ',' !in text
    ensures ',' !in Labelled(tag, k, pre, text, post)
  {
    NoCommaInRepeat(tag, k);
    assert !IsWhitespace(',');
  }

  lemma {:induction false} NoCommaInRepeat(tag: string, k: nat)
    requires ',' !in tag
    ensures ',' !in Repeat(tag, k)
  {
    if k > 0 {
      NoCommaInRepeat(tag, k - 1);
    }
  }

  /** The form exactly as the bot's users are told to write it: the age keeps its label. */
  lemma ParseFormExampleSpaced(content: string)
    requires content == "Name: Alice, Age: 30"
    ensures ParseForm(content) == Some(("Alice", "Age: 30"))
  {
    assert AllWhitespace(" ") by { assert IsWhitespace(' '); }
    assert " Alice"[0] != NAME_LABEL[0];
    assert " Age: 30"[0] != AGE_LABEL[0];
    assert Labelled(NAME_LABEL, 1, " ", "Alice", "") == "Name: Alice" by { assert Repeat(NAME_LABEL, 1) == NAME_LABEL; }
    assert Labelled(AGE_LABEL, 0, " ", "Age: 30", "") == " Age: 30";
    assert "Name: Alice" + "," + " Age: 30" == content;
    ParseFormOf(1, " ", "Alice", "", 0, " ", "Age: 30", "");
  }

  /** With no space after the comma both labels are stripped. */
  lemma ParseFormExampleUnspaced(content: string)
    requires content == "Name:Alice,Age:30"
    ensures ParseForm(content) == Some(("Alice", "30"))
  {
    assert "Alice"[0] != NAME_LABEL[0];
    assert "30"[0] != AGE_LABEL[0];
    assert Labelled(NAME_LABEL, 1, "", "Alice", "") + "," + Labelled(AGE_LABEL, 1, "", "30", "") == content;
    ParseFormOf(1, "", "Alice", "", 1, "", "30", "");
  }

  /** Labels are optional and empty fields are accepted. */
  lemma ParseFormExampleBare(content: string)
    requires content == ","
    ensures ParseForm(content) == Some(("", ""))
  {
    assert Labelled(NAME_LABEL, 0, "", "", "") + "," + Labelled(AGE_LABEL, 0, "", "", "") == content;
    ParseFormOf(0, "", "", "", 0, "", "", "");
  }

  /** Two commas or more are refused, whatever surrounds them. */
  lemma ParseFormExtraComma(a: string, b: string, c: string)
    ensures ParseForm(a + "," + b + "," + c) == None
  {
    var s := a + "," + b + "," + c;
    assert multiset(s) == multiset(a) + multiset{','} + multiset(b) + multiset{','} + multiset(c);
  }

  /** Without a comma the form is refused. */
  lemma ParseFormExampleNoComma(content: string)
    requires content == "Name: Alice"
    ensures ParseForm(content) == None
  {
    assert forall i :: 0 <= i < |content| ==> content[i] != ',';
  }

  /**
    `parse_manual_form`: the content must start with `Manual:` (case-sensitive);
    every leading copy of the tag is stripped and the rest trimmed; an empty
    result is refused.
   */
  function ParseManualForm(content: string): (r: Option<string>)
    ensures r.Some? ==> StartsWith(content, MANUAL_LABEL)
    ensures r.Some? ==> r.value != [] && NoOuterWhitespace(r.value)
  {
    if StartsWith(content, MANUAL_LABEL) then
      var data := Field(content, MANUAL_LABEL);
      if data != [] then Some(data) else None
    else
      None
  }

  /**
    The manual form is accepted exactly when the content starts with the label
    and something other than whitespace follows the leading labels.
   */
  lemma ParseManualFormAccepts(content: string)
    ensures ParseManualForm(content).Some?
            <==> StartsWith(content, MANUAL_LABEL) && !AllWhitespace(TrimStartMatches(content, MANUAL_LABEL))
  {
    TrimEmpty(TrimStartMatches(content, MANUAL_LABEL));
  }

  /** The request holds only characters of the content. */
  lemma ParseManualFormChars(content: string, c: char)
    requires ParseManualForm(content).Some?
    ensures c in ParseManualForm(content).value ==> c in content
  {
    FieldChars(content, MANUAL_LABEL, c);
  }

  /** A manual-review form: one or more labels, then the request between whitespace padding. */
  lemma ParseManualFormOf(k: nat, pre: string, data: string, post: string)
    requires AllWhitespace(pre) && AllWhitespace(post) && NoOuterWhitespace(data)
    requires !StartsWith(pre + data + post, MANUAL_LABEL)
    ensures ParseManualForm(Labelled(MANUAL_LABEL, k + 1, pre, data, post))
            == if data == [] then None else Some(data)
  {
    LabelledSucc(MANUAL_LABEL, k, pre, data, post);
    FieldOf(MANUAL_LABEL, k + 1, pre, data, post);
  }

  lemma ParseManualFormExampleSpaced(content: string)
    requires content == "Manual: needs review"
    ensures ParseManualForm(content) == Some("needs review")
  {
    assert AllWhitespace(" ") by { assert IsWhitespace(' '); }
    assert " needs review"[0] != MANUAL_LABEL[0];
    assert Labelled(MANUAL_LABEL, 1, " ", "needs review", "") == content;
    ParseManualFormOf(0, " ", "needs review", "");
  }

  /** Every leading label goes, not just the first. */
  lemma ParseManualFormExampleRepeated(content: string)
    requires content == "Manual:Manual: x "
    ensures ParseManualForm(content) == Some("x")
  {
    assert AllWhitespace(" ") by { assert IsWhitespace(' '); }
    assert " x "[0] != MANUAL_LABEL[0];
    assert Labelled(MANUAL_LABEL, 2, " ", "x", " ") == content;
    ParseManualFormOf(1, " ", "x", " ");
  }

  /** The label alone is refused. */
  lemma ParseManualFormExampleEmpty(content: string)
    requires content == "Manual:"
    ensures ParseManualForm(content) == None
  {
    assert Labelled(MANUAL_LABEL, 1, "", "", "") == content;
    ParseManualFormOf(0, "", "", "");
  }

  /** The label is case-sensitive and must be the very first thing. */
  lemma ParseManualFormExampleUnlabelled(content: string)
    requires content == "manual: x" || content == " Manual: x"
    ensures ParseManualForm(content) == None
  {
    assert content[0] != MANUAL_LABEL[0];
  }
}
