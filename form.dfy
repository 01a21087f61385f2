/**
  The ad form of the mini app (src/site/form.rs): url-encoded fields are
  gathered into a map from key to the list of its non-empty values, the
  fields are taken out of the map, and the ad text is rendered as HTML.

  Gathering pops pairs off the END of the decoded list, so each list holds
  its values in reverse input order, and `pop()` on a list gives the FIRST
  non-empty value the form sent for that key.
*/
module Forms {
  import opened Wrappers
  import opened RustStd
  import opened Decimal

  type FormData = map<string, seq<string>>

  datatype Form = Form(
    buying: bool,
    sellingCur: string,
    buyingCur: string,
    euMethods: Option<seq<string>>,
    ruMethods: Option<seq<string>>,
    euMethodsStr: Option<string>,
    ruMethodsStr: Option<string>,
    inParts: bool,
    location: Option<string>,
    sum: u32,
    cb: bool,
    rate: Option<string>,
    comment: Option<string>)

  /** `FormParseError`; the decoder's error is not modelled, and `ParseFloat` is never produced. */
  datatype FormParseError = Invalid(message: string) | De

  /** Where building a form panics: an `unwrap` on a required field, or the `sum` parse. */
  datatype PanicSite = MissingField(name: string) | SumNotNumber

  datatype Outcome = Returned(result: Result<Form, FormParseError>) | Panicked(site: PanicSite)

  const NoRateMessage: string := "Не указан курс"
  const BuyWord: string := "Купить"

  function Reversed(s: seq<string>): (r: seq<string>)
    ensures |r| == |s|
  {
    if s == [] then [] else Reversed(s[1..]) + [s[0]]
  }

  /** The non-empty values sent for `k`, in input order. */
  function ValuesOf(ps: seq<(string, string)>, k: string): seq<string>
  {
    if ps == [] then []
    else (if ps[0].0 == k && ps[0].1 != "" then [ps[0].1] else []) + ValuesOf(ps[1..], k)
  }

  /** The first non-empty value sent for `k`. */
  function FirstValue(ps: seq<(string, string)>, k: string): Option<string>
  {
    if ValuesOf(ps, k) == [] then None else Some(ValuesOf(ps, k)[0])
  }

  /** One pass of the gathering loop: a non-empty value is pushed onto its key's list. */
  function Push(m: FormData, p: (string, string)): FormData
  {
    if p.1 == "" then m
    else if p.0 in m then m[p.0 := m[p.0] + [p.1]]
    else m[p.0 := [p.1]]
  }

  /** The map the gathering loop builds; the last pair is popped, and so pushed, first. */
  function Collect(ps: seq<(string, string)>): FormData
  {
    if ps == [] then map[] else Push(Collect(ps[1..]), ps[0])
  }

  /**
    A key is in the map exactly when the form sent it a non-empty value,
    and its list holds those values in reverse input order.
  */
  lemma {:induction false} CollectIsReversedValues(ps: seq<(string, string)>, k: string)
    ensures k in Collect(ps) <==> ValuesOf(ps, k) != []
    ensures k in Collect(ps) ==> Collect(ps)[k] == Reversed(ValuesOf(ps, k))
  {
    if ps != [] {
      CollectIsReversedValues(ps[1..], k);
      var vs := ValuesOf(ps, k);
      if ps[0].0 == k && ps[0].1 != "" {
        assert vs == [ps[0].1] + ValuesOf(ps[1..], k);
        assert vs[1..] == ValuesOf(ps[1..], k);
      } else {
        assert vs == ValuesOf(ps[1..], k);
      }
    }
  }

  /** `TryFrom<&[u8]>`'s loop: pops pairs off the end and pushes each non-empty value. */
  method CollectPairs(pairs: seq<(string, string)>) returns (data: FormData)
    ensures data == Collect(pairs)
  {
    var rest := pairs;
    data := map[];
    while rest != []
      invariant rest == pairs[..|rest|]
      invariant data == Collect(pairs[|rest|..])
      decreases |rest|
    {
      var n := |rest|;
      var (key, value) := rest[n - 1];
      assert pairs[n - 1..][1..] == pairs[n..];
      rest := rest[..n - 1];
      if |value| > 0 {
        if key in data {
          data := data[key := data[key] + [value]];
        } else {
          data := data[key := [value]];
        }
      }
    }
  }

  /** `data.remove(k).unwrap_or_default().pop()`, as far as the value goes. */
  function PopField(data: FormData, k: string): Option<string>
  {
    if k in data && data[k] != [] then Some(data[k][|data[k]| - 1]) else None
  }

  /** `pop()` on a gathered list gives the first non-empty value sent. */
  lemma FirstOccurrenceWins(ps: seq<(string, string)>, k: string)
    ensures PopField(Collect(ps), k) == FirstValue(ps, k)
  {
    CollectIsReversedValues(ps, k);
    var vs := ValuesOf(ps, k);
    if vs != [] {
      assert Reversed(vs) == Reversed(vs[1..]) + [vs[0]];
    }
  }

  /** `data.remove(k)` for a list-valued field. */
  function ListField(data: FormData, k: string): Option<seq<string>>
  {
    if k in data then Some(data[k]) else None
  }

  /** `TryFrom<FormData> for Form`, step by step: the required fields and the rate check. */
  function Extract(data: FormData): Outcome
  {
    var buyOrSell := PopField(data, "buy-or-sell");
    if buyOrSell.None? then Panicked(MissingField("buy-or-sell"))
    else
      var sellingCur := PopField(data, "our-curr");
      if sellingCur.None? then Panicked(MissingField("our-curr"))
      else
        var buyingCur := PopField(data, "their-curr");
        if buyingCur.None? then Panicked(MissingField("their-curr"))
        else
          var cb := "cb" in data;
          var rate := PopField(data, "rate");
          if !cb && rate.None? then Returned(Err(Invalid(NoRateMessage)))
          else Complete(data, buyOrSell.value == BuyWord, sellingCur.value, buyingCur.value, cb, rate)
  }

  /** The rest of the struct: the optional fields, and the `sum` that must parse as a `u32`. */
  function Complete(data: FormData, buying: bool, sellingCur: string, buyingCur: string,
                    cb: bool, rate: Option<string>): Outcome
  {
    var sum := PopField(data, "our-sum");
    if sum.None? then Panicked(MissingField("our-sum"))
    else
      match ParseU32(sum.value)
      case None => Panicked(SumNotNumber)
      case Some(n) =>
        Returned(Ok(Form(
          buying, sellingCur, buyingCur,
          ListField(data, "eu-methods"), ListField(data, "ru-methods"),
          PopField(data, "eu-methods-str"), PopField(data, "ru-methods-str"),
          "in-parts" in data, PopField(data, "location"),
          n, cb, rate, PopField(data, "comment"))))
  }

  /** Removing other keys leaves a field as it was. */
  lemma Untouched(data: FormData, removed: set<string>, k: string)
    requires k !in removed
    ensures PopField(data - removed, k) == PopField(data, k)
    ensures ListField(data - removed, k) == ListField(data, k)
    ensures k in data - removed <==> k in data
  {
  }

  /** Taking out the required fields and the rate does not change the rest of the struct. */
  lemma CompleteUntouched(data: FormData, buying: bool, sellingCur: string, buyingCur: string,
                          cb: bool, rate: Option<string>)
    ensures var d := data - {"buy-or-sell", "our-curr", "their-curr", "rate"};
      Complete(d, buying, sellingCur, buyingCur, cb, rate) == Complete(data, buying, sellingCur, buyingCur, cb, rate)
  {
    var removed := {"buy-or-sell", "our-curr", "their-curr", "rate"};
    Untouched(data, removed, "our-sum");
    Untouched(data, removed, "eu-methods");
    Untouched(data, removed, "ru-methods");
    Untouched(data, removed, "eu-methods-str");
    Untouched(data, removed, "ru-methods-str");
    Untouched(data, removed, "in-parts");
    Untouched(data, removed, "location");
    Untouched(data, removed, "comment");
  }

  /** `TryFrom<FormData> for Form`: removes the fields from the map one at a time. */
  method FormFromData(data: FormData) returns (r: Outcome)
    ensures r == Extract(data)
  {
    var d := data;
    var buyOrSell := PopField(d, "buy-or-sell");
    if buyOrSell.None? {
      return Panicked(MissingField("buy-or-sell"));
    }
    d := d - {"buy-or-sell"};
    Untouched(data, {"buy-or-sell"}, "our-curr");
    var sellingCur := PopField(d, "our-curr");
    if sellingCur.None? {
      return Panicked(MissingField("our-curr"));
    }
    d := d - {"our-curr"};
    Untouched(data, {"buy-or-sell", "our-curr"}, "their-curr");
    assert d == data - {"buy-or-sell", "our-curr"};
    var buyingCur := PopField(d, "their-curr");
    if buyingCur.None? {
      return Panicked(MissingField("their-curr"));
    }
    d := d - {"their-curr"};
    assert d == data - {"buy-or-sell", "our-curr", "their-curr"};
    Untouched(data, {"buy-or-sell", "our-curr", "their-curr"}, "cb");
    Untouched(data, {"buy-or-sell", "our-curr", "their-curr"}, "rate");
    var cb := "cb" in d;
    var rate := PopField(d, "rate");
    d := d - {"rate"};
    if !cb && rate.None? {
      return Returned(Err(Invalid(NoRateMessage)));
    }
    assert d == data - {"buy-or-sell", "our-curr", "their-curr", "rate"};
    CompleteUntouched(data, buyOrSell.value == BuyWord, sellingCur.value, buyingCur.value, cb, rate);
    r := TakeRest(d, buyOrSell.value == BuyWord, sellingCur.value, buyingCur.value, cb, rate);
  }

  /** The second half of `TryFrom<FormData>`: the optional fields, in the order the struct lists them. */
  method TakeRest(data: FormData, buying: bool, sellingCur: string, buyingCur: string,
                  cb: bool, rate: Option<string>) returns (r: Outcome)
    ensures r == Complete(data, buying, sellingCur, buyingCur, cb, rate)
  {
    var d := data;
    var euMethods := ListField(d, "eu-methods");
    d := d - {"eu-methods"};
    var ruMethods := ListField(d, "ru-methods");
    d := d - {"ru-methods"};
    var euMethodsStr := PopField(d, "eu-methods-str");
    d := d - {"eu-methods-str"};
    var ruMethodsStr := PopField(d, "ru-methods-str");
    d := d - {"ru-methods-str"};
    var inParts := "in-parts" in d;
    var location := PopField(d, "location");
    d := d - {"location"};
    var sumText := PopField(d, "our-sum");
    d := d - {"our-sum"};
    if sumText.None? {
      return Panicked(MissingField("our-sum"));
    }
    var sum := ParseU32(sumText.value);
    if sum.None? {
      return Panicked(SumNotNumber);
    }
    assert d == data - {"eu-methods", "ru-methods", "eu-methods-str", "ru-methods-str", "location", "our-sum"};
    Untouched(data, {"eu-methods", "ru-methods", "eu-methods-str", "ru-methods-str", "location", "our-sum"}, "comment");
    var comment := PopField(d, "comment");
    d := d - {"comment"};
    return Returned(Ok(Form(buying, sellingCur, buyingCur, euMethods, ruMethods, euMethodsStr, ruMethodsStr,
                            inParts, location, sum.value, cb, rate, comment)));
  }

  /** `Form::try_from(bytes)`: decode, gather, extract. */
  function ParseForm(urlDecode: seq<byte> -> Option<seq<(string, string)>>, bytes: seq<byte>): Outcome
  {
    match urlDecode(bytes)
    case None => Returned(Err(De))
    case Some(ps) => Extract(Collect(ps))
  }

  /** `TryFrom<&[u8]> for Form`. */
  method FormFromBytes(urlDecode: seq<byte> -> Option<seq<(string, string)>>, bytes: seq<byte>) returns (r: Outcome)
    ensures r == ParseForm(urlDecode, bytes)
  {
    var pairs := urlDecode(bytes);
    if pairs.None? {
      return Returned(Err(De));
    }
    var data := CollectPairs(pairs.value);
    r := FormFromData(data);
  }

  /**
    With the three required fields sent, the form is refused with "Не указан
    курс" exactly when neither `cb` nor a non-empty `rate` was sent.
  */
  lemma NoRateExactly(urlDecode: seq<byte> -> Option<seq<(string, string)>>, bytes: seq<byte>,
                      ps: seq<(string, string)>)
    requires urlDecode(bytes) == Some(ps)
    requires ValuesOf(ps, "buy-or-sell") != [] && ValuesOf(ps, "our-curr") != [] && ValuesOf(ps, "their-curr") != []
    ensures ParseForm(urlDecode, bytes) == Returned(Err(Invalid(NoRateMessage)))
        <==> ValuesOf(ps, "cb") == [] && ValuesOf(ps, "rate") == []
  {
    FirstOccurrenceWins(ps, "buy-or-sell");
    FirstOccurrenceWins(ps, "our-curr");
    FirstOccurrenceWins(ps, "their-curr");
    FirstOccurrenceWins(ps, "rate");
    CollectIsReversedValues(ps, "cb");
  }

  /**
    What an accepted form holds, in terms of the pairs that were sent:
    single fields are their first non-empty value, method lists are all
    non-empty values in reverse order, flags are whether a non-empty value
    was sent, and `buying` is whether `buy-or-sell` said "Купить".
  */
  lemma AcceptedFields(urlDecode: seq<byte> -> Option<seq<(string, string)>>, bytes: seq<byte>,
                       ps: seq<(string, string)>, f: Form)
    requires urlDecode(bytes) == Some(ps)
    requires ParseForm(urlDecode, bytes) == Returned(Ok(f))
    ensures f.buying <==> FirstValue(ps, "buy-or-sell") == Some(BuyWord)
    ensures Some(f.sellingCur) == FirstValue(ps, "our-curr") && Some(f.buyingCur) == FirstValue(ps, "their-curr")
    ensures f.euMethods == (if ValuesOf(ps, "eu-methods") == [] then None else Some(Reversed(ValuesOf(ps, "eu-methods"))))
    ensures f.ruMethods == (if ValuesOf(ps, "ru-methods") == [] then None else Some(Reversed(ValuesOf(ps, "ru-methods"))))
    ensures f.euMethodsStr == FirstValue(ps, "eu-methods-str") && f.ruMethodsStr == FirstValue(ps, "ru-methods-str")
    ensures f.inParts <==> ValuesOf(ps, "in-parts") != []
    ensures f.location == FirstValue(ps, "location") && f.comment == FirstValue(ps, "comment")
    ensures f.cb <==> ValuesOf(ps, "cb") != []
    ensures f.rate == FirstValue(ps, "rate")
    ensures f.cb || f.rate.Some?
    ensures FirstValue(ps, "our-sum").Some? && ParseU32(FirstValue(ps, "our-sum").value) == Some(f.sum)
  {
    var data := Collect(ps);
    FirstOccurrenceWins(ps, "buy-or-sell");
    FirstOccurrenceWins(ps, "our-curr");
    FirstOccurrenceWins(ps, "their-curr");
    FirstOccurrenceWins(ps, "rate");
    FirstOccurrenceWins(ps, "our-sum");
    FirstOccurrenceWins(ps, "eu-methods-str");
    FirstOccurrenceWins(ps, "ru-methods-str");
    FirstOccurrenceWins(ps, "location");
    FirstOccurrenceWins(ps, "comment");
    CollectIsReversedValues(ps, "cb");
    CollectIsReversedValues(ps, "in-parts");
    CollectIsReversedValues(ps, "eu-methods");
    CollectIsReversedValues(ps, "ru-methods");
  }

  /** What `methods` appends after the prefix. */
  function MethodsText(m: Option<seq<string>>, s: Option<string>): string
  {
    (if m.Some? then Join(m.value, ", ") else "") + (if s.Some? then ", " + s.value else "")
  }

  /** The line `methods` produces: empty when nothing was appended, otherwise prefix, methods and a line end. */
  function MethodsLine(prefix: string, m: Option<seq<string>>, s: Option<string>): string
  {
    if MethodsText(m, s) == "" then "" else prefix + MethodsText(m, s) + "\n"
  }

  /** `methods(res, m, s)`: appends to `res` and compares its length with the original. */
  method Methods(res: string, m: Option<seq<string>>, s: Option<string>) returns (out: string)
    ensures out == MethodsLine(res, m, s)
  {
    var text := res;
    var origLen := |text|;
    if m.Some? {
      text := text + Join(m.value, ", ");
    }
    if s.Some? {
      text := text + ", " + s.value;
    }
    if |text| != origLen {
      out := text + "\n";
    } else {
      out := "";
    }
  }

  /** The methods line is empty exactly when there is no free-text method and the list is absent, empty or one empty name. */
  lemma MethodsLineEmpty(prefix: string, m: Option<seq<string>>, s: Option<string>)
    ensures MethodsLine(prefix, m, s) == "" <==> s.None? && (m.None? || m.value == [] || m.value == [""])
  {
    if m.Some? {
      JoinEmpty(m.value, ", ");
    }
  }

  /** `Form::summary`. */
  function Summary(f: Form): string
  {
    (if f.buying then "Куплю" else "Продам") + " " + NatToString(f.sum) + " "
      + (if f.buying then f.buyingCur else f.sellingCur) + " за "
      + (if f.buying then f.sellingCur else f.buyingCur)
  }

  /**
    The summary names the side of the deal first, and the currency the user
    gets before the one they give: buying is "Куплю {sum} {their} за {our}",
    selling is "Продам {sum} {our} за {their}".
  */
  lemma SummarySides(f: Form)
    ensures f.buying ==> Summary(f) == "Куплю " + NatToString(f.sum) + " " + f.buyingCur + " за " + f.sellingCur
    ensures !f.buying ==> Summary(f) == "Продам " + NatToString(f.sum) + " " + f.sellingCur + " за " + f.buyingCur
    ensures Summary(f)[..6] == "Куплю " <==> f.buying
  {
    var s := Summary(f);
    if f.buying {
      assert s == "Куплю " + (NatToString(f.sum) + " " + f.buyingCur + " за " + f.sellingCur);
      assert s[..6] == "Куплю ";
    } else {
      assert s == "Продам" + (" " + NatToString(f.sum) + " " + f.sellingCur + " за " + f.buyingCur);
      assert s[..6] == "Продам";
      assert "Продам"[0] != "Куплю "[0];
    }
  }

  function RateClause(f: Form): string
  {
    if f.cb then "по текущему курсу" else "по курсу " + (if f.rate.Some? then f.rate.value else "")
  }

  function PartsClause(f: Form): string
  {
    if f.inParts then "Возможно частями\n" else ""
  }

  function CommentText(f: Form): string
  {
    if f.comment.Some? then Trim(f.comment.value) else ""
  }

  /** The text before the parts clause: the bold summary and the rate line. */
  function Header(f: Form): string
  {
    "<b>" + Summary(f) + "</b>\n" + RateClause(f) + "\n"
  }

  /** The text after the parts clause: the two methods lines and the comment. */
  function Footer(f: Form): string
  {
    MethodsLine("eu: ", f.euMethods, f.euMethodsStr) + MethodsLine("ru: ", f.ruMethods, f.ruMethodsStr) + CommentText(f)
  }

  /** `Display for Form`. */
  function Display(f: Form): string
  {
    Header(f) + PartsClause(f) + Footer(f)
  }

  /** "Возможно частями" is in the text exactly when `in_parts` is set; nothing else in the text depends on it. */
  lemma InPartsClause(f: Form)
    ensures Display(f.(inParts := true)) == Header(f) + "Возможно частями\n" + Footer(f)
    ensures Display(f.(inParts := false)) == Header(f) + Footer(f)
  {
    PartsNotRead(f, true);
    PartsNotRead(f, false);
  }

  lemma PartsNotRead(f: Form, b: bool)
    ensures Header(f.(inParts := b)) == Header(f) && Footer(f.(inParts := b)) == Footer(f)
    ensures PartsClause(f.(inParts := b)) == if b then "Возможно частями\n" else ""
  {
    var g := f.(inParts := b);
    assert Summary(g) == Summary(f) && RateClause(g) == RateClause(f) && CommentText(g) == CommentText(f);
  }

  /** With `cb` set the text says "по текущему курсу", and the rate does not show. */
  lemma CurrentRateIgnoresRate(f: Form, rate: Option<string>)
    requires f.cb
    ensures Display(f) == Display(f.(rate := rate))
    ensures RateClause(f) == "по текущему курсу"
  {
  }

  /** The comment is shown trimmed: whitespace around it never reaches the text. */
  lemma CommentPaddingIgnored(f: Form, w1: string, c: string, w2: string)
    requires AllWhitespace(w1) && AllWhitespace(w2)
    ensures Display(f.(comment := Some(w1 + c + w2))) == Display(f.(comment := Some(c)))
  {
    TrimIgnoresPadding(w1, c, w2);
    assert Header(f.(comment := Some(w1 + c + w2))) == Header(f.(comment := Some(c)));
  }
}
