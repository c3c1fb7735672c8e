/** A bare argument value that grows while it is written: exactly when what is sent for it grows too. */
module ValueGrowth {
  import opened Json
  import Q = QuoteNormalizer
  import opened ToolCallMapper

  /** How a bare value is sent: not at all, as it stands, or as a string. */
  datatype Form = Nothing | Raw | Quoted(s: string)

  function FormOf(e: Event): Form {
    var w := TrimOnce(e.text);
    if w == "" then Nothing
    else
      var parsed := Parse(Normalize(w));
      if parsed.Done? then if parsed.value.Str? then Quoted(parsed.value.s) else Raw
      else if e.partial && IsContainer(w) then Raw
      else Quoted(Normalize(w))
  }

  lemma FormIsSent(e: Event)
    requires e.tag == ArgValue
    ensures ValueAddition(e, false).text ==
            match FormOf(e)
            case Nothing => ""
            case Raw => Normalize(TrimOnce(e.text))
            case Quoted(s) => "\"" + Escape(s)
    ensures FormOf(e).Quoted? <==> ValueAddition(e, false).closingQuote
  {
    hide Parse, Normalize, Escape;
  }

  /** A container's text ends between a backslash and the single quote that it escapes. */
  predicate CutsEscape(w: string, longer: string) {
    IsContainer(w) && w < longer && Q.EndsInEscape(Q.Outside, w) && longer[|w|] == '\''
  }

  /** Nothing may become anything, a text sent as it stands goes on as it stands, without taking back an
      escape, and a string goes on as a string. */
  predicate FormGrows(x: Event, y: Event) {
    match FormOf(x)
    case Nothing => true
    case Raw => FormOf(y).Raw? && !CutsEscape(TrimOnce(x.text), TrimOnce(y.text))
    case Quoted(s) => FormOf(y).Quoted? && s <= FormOf(y).s
  }

  /** A text that begins with a quote is a string or no JSON at all. */
  lemma QuotedIsString(t: string)
    requires t != "" && t[0] == '"' && Parse(t).Done?
    ensures Parse(t).value.Str?
  {
    hide ReadString;
    assert SkipWs(t) == t;
  }

  /** Nor is a container a string. */
  lemma ContainerIsNoString(t: string)
    requires IsContainer(t) && Parse(t).Done?
    ensures !Parse(t).value.Str?
  {
    hide ReadItems, ReadMembers;
    assert SkipWs(t) == t;
  }

  /** Rewriting quotes keeps what a container begins with. */
  lemma NormalizedBegins(w: string)
    requires IsContainer(w)
    ensures Normalize(w) != "" && Normalize(w)[0] == w[0] && IsContainer(Normalize(w))
  {
  }

  lemma RawBegins(e: Event)
    requires FormOf(e).Raw?
    ensures var n := Normalize(TrimOnce(e.text)); n != "" && n[0] != '"'
  {
    hide Parse, Q.Normalized, TrimOnce;
    var w := TrimOnce(e.text);
    if IsContainer(w) {
      NormalizedBegins(w);
    } else if w[0] == '"' {
      QuotedIsString(w);
    }
  }

  /** Two texts that are sent as they stand. */
  lemma RawGrowsIff(w: string, longer: string)
    requires w != "" && w <= longer
    ensures Normalize(w) <= Normalize(longer) <==> !CutsEscape(w, longer)
  {
    hide Q.Normalized, Q.EndsInEscape;
    Q.GrowsIff(Q.Outside, w, longer);
  }

  /** For every text and every continuation of it: what is sent for the longer one goes on from what is sent
      for the shorter one exactly when the form of the value stays. */
  lemma GrowsIff(x: Event, y: Event)
    requires x.tag == y.tag == ArgValue && TrimOnce(x.text) <= TrimOnce(y.text)
    ensures ValueAddition(x, false).text <= ValueAddition(y, false).text <==> FormGrows(x, y)
  {
    hide ValueAddition, Normalize, TrimOnce, CutsEscape, Escape, Parse;
    FormIsSent(x);
    FormIsSent(y);
    var f, g := FormOf(x), FormOf(y);
    if f.Raw? { RawBegins(x); }
    if g.Raw? { RawBegins(y); }
    if f.Raw? && g.Raw? {
      RawGrowsIff(TrimOnce(x.text), TrimOnce(y.text));
    } else if f.Quoted? && g.Quoted? {
      EscapePrefixIff(f.s, g.s);
      Q.SamePrefix("\"", Escape(f.s), Escape(g.s));
    }
  }

  /** An unfinished container goes on while it stays unfinished or ends up as JSON, unless it was cut inside an
      escape. */
  lemma ContainerGrowsIff(x: Event, y: Event)
    requires x.tag == y.tag == ArgValue && TrimOnce(x.text) <= TrimOnce(y.text)
    requires x.partial && IsContainer(TrimOnce(x.text))
    ensures ValueAddition(x, false).text <= ValueAddition(y, false).text <==>
            && (y.partial || Parse(Normalize(TrimOnce(y.text))).Done?)
            && !CutsEscape(TrimOnce(x.text), TrimOnce(y.text))
  {
    hide ValueAddition, Normalize, TrimOnce, CutsEscape, Parse;
    GrowsIff(x, y);
    var w, longer := TrimOnce(x.text), TrimOnce(y.text);
    assert IsContainer(longer) by { assert longer[0] == w[0]; }
    FormOfContainer(x);
    FormOfContainer(y);
  }

  lemma FormOfContainer(e: Event)
    requires IsContainer(TrimOnce(e.text))
    ensures FormOf(e).Raw? <==> e.partial || Parse(Normalize(TrimOnce(e.text))).Done?
    ensures FormOf(e).Raw? || FormOf(e).Quoted?
  {
    hide TrimOnce, Parse, Q.Normalized;
    var w := TrimOnce(e.text);
    NormalizedBegins(w);
    if Parse(Normalize(w)).Done? { ContainerIsNoString(Normalize(w)); }
  }

  /** What is sent for an unfinished container is the container in JSON's quotes: nothing is left out and no
      string is opened around it. */
  lemma UnfinishedIsSent(e: Event, closingQuote: bool)
    requires e.tag == ArgValue && e.partial && IsContainer(TrimOnce(e.text))
    ensures var a := ValueAddition(e, closingQuote);
            && a.closingQuote == closingQuote && Q.DoubleOnly(Q.Outside, a.text)
            && Q.Meaning(Q.Outside, a.text) == Q.Meaning(Q.Outside, TrimOnce(e.text))
  {
    hide TrimOnce, Parse, Q.Normalized, Q.DoubleOnly, Q.Meaning;
    var w := TrimOnce(e.text);
    NormalizedBegins(w);
    if Parse(Normalize(w)).Done? { ContainerIsNoString(Normalize(w)); }
    Q.PreservesMeaning(Q.Outside, w);
    Q.OutputIsDoubleQuoted(Q.Outside, w);
  }

  lemma TruthForms()
    ensures ValueAddition(Event(ArgValue, "tr", true), false) == Addition("\"tr", true)
    ensures ValueAddition(Event(ArgValue, "true", false), false) == Addition("true", false)
  {
    TrimmedTruth();
    hide TrimOnce, ReadItems, ReadMembers, ReadString, Escape, IsNumber;
    assert Parse("tr").Fail? by {
      assert SkipWs("tr") == "tr" && NumRun("tr") == "" && !IsNumber("");
      assert !("true" <= "tr") && !("false" <= "tr") && !("null" <= "tr");
    }
    assert Parse("true") == Done(Bool(true), []) by {
      assert SkipWs("true") == "true" && "true" <= "true" && "true"[4..] == [] && SkipWs([]) == [];
    }
    assert Escape("tr") == "tr" by { EscapedTruth(); }
  }

  lemma TrimmedTruth()
    ensures TrimOnce("tr") == "tr" && TrimOnce("true") == "true"
  {
  }

  lemma EscapedTruth()
    ensures Escape("tr") == "tr"
  {
    assert "tr"[1..] == "r" && "r"[1..] == "";
  }

  /** The two parts of an escaped quote that arrive one after the other. */
  lemma EscapeExample()
    ensures CutsEscape("['it\\", "['it\\'s']")
    ensures !(Normalize("['it\\") <= Normalize("['it\\'s']"))
  {
    var w, longer := "['it\\", "['it\\'s']";
    assert w[1..] == "'it\\" && w[1..][1..] == "it\\" && w[1..][1..][1..] == "t\\" && w[1..][1..][1..][1..] == "\\";
    assert Q.EndsInEscape(Q.InSingle, "\\");
    assert Q.EndsInEscape(Q.InSingle, "t\\") && Q.EndsInEscape(Q.InSingle, "it\\");
    assert Q.EndsInEscape(Q.Outside, "'it\\") && Q.EndsInEscape(Q.Outside, w);
    assert longer[..|w|] == w && longer[|w|] == '\'';
    RawGrowsIff(w, longer);
  }
}
