/** Texts of cron expressions that other results speak of, and what they are parsed to. */
module CronTexts {
  import opened Cron
  import opened CronField
  import opened Text

  // ----- "5-10/9223372036854775807" -----

  lemma DecimalGrows(s: string, c: char, t: string)
    requires Digits(s) && IsDigit(c) && t == s + [c]
    ensures Digits(t) && Decimal(t) == 10 * Decimal(s) + (c - '0') as nat
  {
    assert t[..|s|] == s;
  }

  lemma FirstDigits()
    ensures Digits("9223372036") && Decimal("9223372036") == 9223372036
  {
    assert Digits("") && Decimal("") == 0;
    hide Decimal, Digits;
    DecimalGrows("", '9', "9");
    DecimalGrows("9", '2', "92");
    DecimalGrows("92", '2', "922");
    DecimalGrows("922", '3', "9223");
    DecimalGrows("9223", '3', "92233");
    DecimalGrows("92233", '7', "922337");
    DecimalGrows("922337", '2', "9223372");
    DecimalGrows("9223372", '0', "92233720");
    DecimalGrows("92233720", '3', "922337203");
    DecimalGrows("922337203", '6', "9223372036");
  }

  lemma MaxIntText()
    ensures Digits("9223372036854775807") && Decimal("9223372036854775807") == MAX_INT
  {
    hide Decimal, Digits;
    FirstDigits();
    DecimalGrows("9223372036", '8', "92233720368");
    DecimalGrows("92233720368", '5', "922337203685");
    DecimalGrows("922337203685", '4', "9223372036854");
    DecimalGrows("9223372036854", '7', "92233720368547");
    DecimalGrows("92233720368547", '7', "922337203685477");
    DecimalGrows("922337203685477", '5', "9223372036854775");
    DecimalGrows("9223372036854775", '8', "92233720368547758");
    DecimalGrows("92233720368547758", '0', "922337203685477580");
    DecimalGrows("922337203685477580", '7', "9223372036854775807");
  }

  /** A text of digits in the range of int is read as its value, and trimming leaves it. */
  lemma NumberText(s: string)
    requires s != "" && Digits(s) && Decimal(s) <= MAX_INT
    ensures Trim(s) == s && Atoi(s) == Some(Decimal(s))
  {
    TrimOfTrimmed(s);
  }

  lemma SmallNumbers()
    ensures Digits("0") && Digits("1") && Digits("2") && Digits("5") && Digits("10") && Digits("29")
    ensures Decimal("0") == 0 && Decimal("1") == 1 && Decimal("2") == 2 && Decimal("5") == 5
    ensures Decimal("10") == 10 && Decimal("29") == 29
  {
    assert Digits("") && Decimal("") == 0;
    hide Decimal, Digits;
    DecimalGrows("", '0', "0");
    DecimalGrows("", '1', "1");
    DecimalGrows("", '2', "2");
    DecimalGrows("", '5', "5");
    DecimalGrows("1", '0', "10");
    DecimalGrows("2", '9', "29");
  }

  lemma HugeStepIsParsed()
    ensures ParseSegment("5-10/9223372036854775807", 0, 59) == Some(RangeStep(5, 10, MAX_INT))
  {
    hide Decimal, Digits, Trim, Atoi, Find;
    var step, base := "9223372036854775807", "5-10";
    MaxIntText();
    NumberText(step);
    SmallNumbers();
    NumberText("5");
    NumberText("10");
    BaseIsCut(base);
    SegmentIsCut(base, step);
  }

  lemma BaseIsCut(base: string)
    requires base == "5-10"
    ensures Trim(base) == base && Contains(base, '-') && Find(base, '-') == 1 && base[..1] == "5" && base[2..] == "10"
  {
    TrimOfTrimmed(base);
    FindFirst("5", '-', "10");
    assert base == "5" + ['-'] + "10";
  }

  lemma SegmentIsCut(base: string, step: string)
    requires base == "5-10" && step == "9223372036854775807"
    ensures var seg := "5-10/9223372036854775807";
            && !HasPrefix(seg, "*/") && Contains(seg, '/') && Find(seg, '/') == 4
            && seg[..4] == base && seg[5..] == step
  {
    hide Find;
    FindFirst(base, '/', step);
    var seg := "5-10/9223372036854775807";
    assert seg == base + ['/'] + step;
    assert seg[4] == '/' && seg[..2][0] == '5';
  }

  // ----- from segments to fields -----

  /** A field of one segment lists what the segment selects. */
  lemma OneSegment(field: string, seg: Segment, min: int, max: int)
    requires min <= max && ',' !in field && Trim(field) == field && field != "" && field != "*"
    requires ParseSegment(field, min, max) == Some(seg)
    ensures FieldValues(field, min, max) == Some(Chosen([seg], min, max, min))
  {
    hide ParseSegment, Trim;
    FindNone(field, ',');
    assert Split(field, ',') == [field];
    assert [field][..0] == [];
    assert Segments([], min, max) == Some([]);
    assert Segments([field], min, max) == Some([] + [seg]);
    assert [] + [seg] == [seg];
  }

  /** An increasing list is told by its members. */
  lemma {:induction false} SameMembers(s: seq<int>, t: seq<int>)
    requires Increasing(s) && Increasing(t) && forall v :: v in s <==> v in t
    ensures s == t
  {
    assert (s == [] || s[0] in s) && (t == [] || t[0] in t);
    if s != [] {
      assert s[0] == t[0];
      forall v ensures v in s[1..] <==> v in t[1..] {
        assert v in s <==> v == s[0] || v in s[1..];
        assert v in t <==> v == t[0] || v in t[1..];
      }
      SameMembers(s[1..], t[1..]);
      assert s == [s[0]] + s[1..] && t == [t[0]] + t[1..];
    }
  }

  lemma SelectedByOne(seg: Segment, min: int, max: int, values: seq<int>)
    requires min <= max && WellFormed(seg, min, max) && Increasing(values)
    requires forall v :: v in values <==> min <= v <= max && Selects(seg, min, max, v)
    ensures AllWellFormed([seg], min, max) && Chosen([seg], min, max, min) == values
  {
    hide Selects, Chosen, WellFormed;
    ChosenMeaning([seg], min, max, min);
    forall v | min <= v <= max ensures Selected([seg], min, max, v) <==> Selects(seg, min, max, v) {
      assert seg in [seg];
    }
    SameMembers(Chosen([seg], min, max, min), values);
  }

  /** The field 5-10/9223372036854775807 of minutes is read as 1, 3 and 5. */
  lemma HugeStepField()
    ensures FieldValues("5-10/9223372036854775807", 0, 59) == Some([1, 3, 5])
  {
    hide ParseSegment, Trim, Chosen, Selects, FieldValues;
    var field, seg := "5-10/9223372036854775807", RangeStep(5, 10, MAX_INT);
    HugeStepIsParsed();
    HugeFieldIsPlain(field);
    HugeStepSelectsTooMuch();
    OneSegment(field, seg, 0, 59);
    assert forall v :: v in [1, 3, 5] <==> v in {1, 3, 5};
    SelectedByOne(seg, 0, 59, [1, 3, 5]);
  }

  lemma HugeFieldIsPlain(field: string)
    requires field == "5-10/9223372036854775807"
    ensures ',' !in field && Trim(field) == field && field != "*"
  {
    TrimOfTrimmed(field);
  }

  // ----- "0 0 29 2 1" -----

  lemma NumberField(s: string, min: int, max: int)
    requires s != "" && Digits(s) && Decimal(s) <= MAX_INT && min <= Decimal(s) <= max
    ensures FieldValues(s, min, max) == Some([Decimal(s)])
  {
    NumberText(s);
    NumberSegment(s, min, max);
    hide ParseSegment, Trim, Atoi, Decimal, FieldValues;
    assert !IsDigit(',') && !IsDigit('*');
    assert ',' !in s && s[0] != '*';
    OneSegment(s, Value(Decimal(s)), min, max);
    SelectedByOne(Value(Decimal(s)), min, max, [Decimal(s)]);
  }

  lemma NumberSegment(s: string, min: int, max: int)
    requires s != "" && Digits(s) && Atoi(s) == Some(Decimal(s)) && min <= Decimal(s) <= max
    ensures ParseSegment(s, min, max) == Some(Value(Decimal(s)))
  {
    hide Decimal, Atoi;
    assert IsDigit(s[0]) && '/' !in s && '-' !in s;
  }

  /** The first word of a text and the rest behind one space. */
  lemma FirstWord(w: string, rest: string)
    requires w != "" && forall i :: 0 <= i < |w| ==> !IsSpace(w[i])
    ensures Fields(w + " " + rest) == [w] + Fields(rest)
  {
    var s := w + (" " + rest);
    assert w + " " + rest == s;
    WordOf(w, " " + rest);
    assert TrimLeft(s) == s && s[..|w|] == w && s[|w|..] == " " + rest;
    assert (" " + rest)[1..] == rest;
    assert TrimLeft(" " + rest) == TrimLeft(rest);
    assert Fields(" " + rest) == Fields(rest);
  }

  lemma LastWord(w: string)
    requires w != "" && forall i :: 0 <= i < |w| ==> !IsSpace(w[i])
    ensures Fields(w) == [w]
  {
    WordOf(w, "");
    assert w + "" == w && w[..|w|] == w && w[|w|..] == "";
    assert TrimLeft(w) == w && Fields("") == [];
  }

  lemma {:induction false} WordOf(w: string, rest: string)
    requires (forall i :: 0 <= i < |w| ==> !IsSpace(w[i])) && (rest == "" || IsSpace(rest[0]))
    ensures WordLength(w + rest) == |w|
  {
    if w == "" {
      assert w + rest == rest;
    } else {
      assert (w + rest)[1..] == w[1..] + rest;
      WordOf(w[1..], rest);
    }
  }

  lemma FiveWords()
    ensures Fields("0 0 29 2 1") == ["0", "0", "29", "2", "1"]
  {
    hide Fields;
    LastWord("1");
    FirstWord("2", "1");
    assert "2" + " " + "1" == "2 1";
    FirstWord("29", "2 1");
    assert "29" + " " + "2 1" == "29 2 1";
    FirstWord("0", "29 2 1");
    assert "0" + " " + "29 2 1" == "0 29 2 1";
    FirstWord("0", "0 29 2 1");
    assert "0" + " " + "0 29 2 1" == "0 0 29 2 1";
    assert ["0"] + (["0"] + (["29"] + (["2"] + ["1"]))) == ["0", "0", "29", "2", "1"];
  }

  lemma FiveNumbers()
    ensures FieldValues("0", 0, 59) == Some([0]) && FieldValues("0", 0, 23) == Some([0])
    ensures FieldValues("29", 1, 31) == Some([29]) && FieldValues("2", 1, 12) == Some([2]) && FieldValues("1", 0, 6) == Some([1])
  {
    hide FieldValues, Decimal, Digits;
    SmallNumbers();
    NumberField("0", 0, 59);
    NumberField("0", 0, 23);
    NumberField("29", 1, 31);
    NumberField("2", 1, 12);
    NumberField("1", 0, 6);
  }

  lemma LeapMondaysText()
    ensures ParseCron("0 0 29 2 1") == Some(LEAP_MONDAYS)
  {
    hide Fields, FieldValues, Trim;
    FiveWords();
    FiveNumbers();
    TrimmedText();
  }

  lemma TrimmedText()
    ensures Trim("0 0 29 2 1") == "0 0 29 2 1"
  {
    TrimOfTrimmed("0 0 29 2 1");
  }
}
