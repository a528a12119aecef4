/**
 * The full-text query printer (crates/singularis-vault/src/vault.rs, `create_fts_query`)
 * and a reader for the fragment of the FTS5 query language it prints: quoted strings with
 * doubled quotes, a `*` suffix, joined by AND.
 */
module SearchQuery {
  import opened Wrappers
  import Text

  function WordLength(text: string): (n: nat)
    ensures n <= |text|
    ensures forall i | 0 <= i < n :: !Text.IsWhitespace(text[i])
    ensures n < |text| ==> Text.IsWhitespace(text[n])
  {
    if text == "" || Text.IsWhitespace(text[0]) then 0 else 1 + WordLength(text[1..])
  }

  /** `split_whitespace` */
  function Terms(query: string): seq<string>
    decreases |query|
  {
    if query == "" then []
    else if Text.IsWhitespace(query[0]) then Terms(query[1..])
    else
      var n := WordLength(query);
      [query[..n]] + Terms(query[n..])
  }

  /** `replace('"', "\"\"")` */
  function Escape(term: string): string {
    if term == "" then "" else (if term[0] == '"' then "\"\"" else [term[0]]) + Escape(term[1..])
  }

  function Quote(term: string): string { "\"" + Escape(term) + "\"*" }

  function Join(terms: seq<string>): string
    requires terms != []
  {
    if |terms| == 1 then Quote(terms[0]) else Quote(terms[0]) + " AND " + Join(terms[1..])
  }

  /** `create_fts_query`; the error is `InvalidInput`. */
  function CreateFtsQuery(query: string): Result<string, ()> {
    var terms := Terms(query);
    if terms == [] then Err(()) else Ok(Join(terms))
  }

  /** The string behind an opening quote, and what follows its closing quote. */
  function ReadString(text: string): Option<(string, string)> {
    if text == "" then None
    else if text[0] != '"' then
      match ReadString(text[1..])
      case Some((body, tail)) => Some(([text[0]] + body, tail))
      case None => None
    else if |text| > 1 && text[1] == '"' then
      match ReadString(text[2..])
      case Some((body, tail)) => Some((['"'] + body, tail))
      case None => None
    else Some(("", text[1..]))
  }

  lemma {:induction false} ReadStringShrinks(text: string)
    ensures ReadString(text).Some? ==> |ReadString(text).value.1| < |text|
  {
    if text != "" && text[0] != '"' {
      ReadStringShrinks(text[1..]);
    } else if |text| > 1 && text[1] == '"' {
      ReadStringShrinks(text[2..]);
    }
  }

  /** Reads `"…"* AND "…"* …`; None on anything else. */
  function ReadQuery(text: string): Option<seq<string>>
    decreases |text|
  {
    if text == "" || text[0] != '"' then None
    else
      ReadStringShrinks(text[1..]);
      match ReadString(text[1..])
      case None => None
      case Some((term, tail)) =>
        if tail == "*" then Some([term])
        else if "* AND " <= tail then
          match ReadQuery(tail[6..])
          case Some(terms) => Some([term] + terms)
          case None => None
        else None
  }

  lemma {:induction false} ReadEscaped(term: string, tail: string)
    requires tail == "" || tail[0] != '"'
    ensures ReadString(Escape(term) + "\"" + tail) == Some((term, tail))
  {
    if term == "" {
      assert (Escape(term) + "\"" + tail)[1..] == tail;
    } else {
      ReadEscaped(term[1..], tail);
      var rest := Escape(term[1..]) + "\"" + tail;
      if term[0] == '"' {
        assert Escape(term) + "\"" + tail == "\"\"" + rest;
        assert ("\"\"" + rest)[2..] == rest;
      } else {
        assert Escape(term) + "\"" + tail == [term[0]] + rest;
        assert ([term[0]] + rest)[1..] == rest;
      }
      assert [term[0]] + term[1..] == term;
    }
  }

  lemma ReadQuoted(term: string, suffix: string)
    requires suffix == "" || suffix[0] != '"'
    ensures var text := "\"" + Escape(term) + "\"" + suffix;
            text[0] == '"' && ReadString(text[1..]) == Some((term, suffix))
  {
    hide Escape, ReadString;
    ReadEscaped(term, suffix);
    assert ("\"" + Escape(term) + "\"" + suffix)[1..] == Escape(term) + "\"" + suffix;
  }

  lemma ReadMore(term: string, rest: string, terms: seq<string>)
    requires ReadQuery(rest) == Some(terms)
    ensures ReadQuery("\"" + Escape(term) + "\"" + ("* AND " + rest)) == Some([term] + terms)
  {
    hide Escape, ReadString;
    var suffix := "* AND " + rest;
    ReadQuoted(term, suffix);
    assert "* AND " <= suffix && suffix[6..] == rest && suffix[1] == ' ';
  }

  lemma ReadOnly(term: string)
    ensures ReadQuery("\"" + Escape(term) + "\"" + "*") == Some([term])
  {
    hide Escape, ReadString;
    ReadQuoted(term, "*");
  }

  /** Whatever quotes, stars or keywords the terms hold, the reader finds exactly the terms. */
  lemma {:induction false} ReadJoined(terms: seq<string>)
    requires terms != []
    ensures ReadQuery(Join(terms)) == Some(terms)
  {
    hide Escape, ReadQuery;
    assert terms == [terms[0]] + terms[1..];
    if |terms| == 1 {
      assert terms == [terms[0]];
      ReadOnly(terms[0]);
      assert Join(terms) == "\"" + Escape(terms[0]) + "\"" + "*";
    } else {
      ReadJoined(terms[1..]);
      ReadMore(terms[0], Join(terms[1..]), terms[1..]);
      assert Join(terms) == "\"" + Escape(terms[0]) + "\"" + ("* AND " + Join(terms[1..]));
    }
  }

  predicate IsWord(term: string) {
    term != "" && forall i | 0 <= i < |term| :: !Text.IsWhitespace(term[i])
  }

  function Weave(gaps: seq<string>, terms: seq<string>): string
    requires |gaps| == |terms| + 1
  {
    if terms == [] then gaps[0] else gaps[0] + terms[0] + Weave(gaps[1..], terms[1..])
  }

  /** `query` is the `terms` set apart by `gaps` of whitespace, the inner ones not empty. */
  ghost predicate SetsApart(query: string, gaps: seq<string>, terms: seq<string>) {
    && |gaps| == |terms| + 1
    && (forall i | 0 <= i < |terms| :: IsWord(terms[i]))
    && (forall i | 0 <= i < |gaps| :: Text.IsBlank(gaps[i]))
    && (forall i | 0 < i < |terms| :: gaps[i] != "")
    && query == Weave(gaps, terms)
  }

  lemma {:induction false} TermsAfterGap(gap: string, rest: string)
    requires Text.IsBlank(gap)
    ensures Terms(gap + rest) == Terms(rest)
  {
    if gap == "" {
      assert gap + rest == rest;
    } else {
      TermsAfterGap(gap[1..], rest);
      assert (gap + rest)[1..] == gap[1..] + rest;
    }
  }

  lemma TermsAtWord(word: string, rest: string)
    requires IsWord(word)
    requires rest == "" || Text.IsWhitespace(rest[0])
    ensures Terms(word + rest) == [word] + Terms(rest)
  {
    var text := word + rest;
    var n := WordLength(text);
    assert forall i | 0 <= i < |word| :: text[i] == word[i];
    assert rest != "" ==> text[|word|] == rest[0];
    assert n == |word|;
    assert text[..n] == word && text[n..] == rest;
  }

  /** At most one list of words can be set apart in a query: the one `split_whitespace` gives. */
  lemma {:induction false} SetApartTermsAreUnique(query: string, gaps: seq<string>, terms: seq<string>)
    requires SetsApart(query, gaps, terms)
    ensures Terms(query) == terms
    decreases |terms|
  {
    if terms == [] {
      TermsAfterGap(gaps[0], "");
      assert gaps[0] + "" == query;
    } else {
      var rest := Weave(gaps[1..], terms[1..]);
      FirstSetApart(query, gaps, terms);
      hide SetsApart, Weave, Terms;
      SetApartTermsAreUnique(rest, gaps[1..], terms[1..]);
      TermsAtWord(terms[0], rest);
      TermsAfterGap(gaps[0], terms[0] + rest);
      assert terms == [terms[0]] + terms[1..];
    }
  }

  lemma FirstSetApart(query: string, gaps: seq<string>, terms: seq<string>)
    requires SetsApart(query, gaps, terms) && terms != []
    ensures var rest := Weave(gaps[1..], terms[1..]);
            && IsWord(terms[0]) && Text.IsBlank(gaps[0])
            && (rest == "" || Text.IsWhitespace(rest[0]))
            && query == gaps[0] + (terms[0] + rest)
            && SetsApart(rest, gaps[1..], terms[1..])
  {
  }

  lemma WidenGap(c: char, query: string, gaps: seq<string>, terms: seq<string>) returns (wider: seq<string>)
    requires SetsApart(query, gaps, terms) && Text.IsWhitespace(c)
    ensures SetsApart([c] + query, wider, terms)
  {
    wider := [[c] + gaps[0]] + gaps[1..];
    assert wider[1..] == gaps[1..];
    assert Text.IsBlank(wider[0]);
    assert Weave(wider, terms) == [c] + Weave(gaps, terms);
  }

  lemma AddWord(word: string, query: string, gaps: seq<string>, terms: seq<string>) returns (more: seq<string>)
    requires SetsApart(query, gaps, terms) && IsWord(word)
    requires query == "" || Text.IsWhitespace(query[0])
    ensures SetsApart(word + query, more, [word] + terms)
  {
    more := [""] + gaps;
    if terms != [] {
      assert IsWord(terms[0]);
      assert query == gaps[0] + (terms[0] + Weave(gaps[1..], terms[1..]));
      assert (terms[0] + Weave(gaps[1..], terms[1..]))[0] == terms[0][0];
    }
    assert more[1..] == gaps && ([word] + terms)[1..] == terms;
    assert Weave(more, [word] + terms) == "" + word + Weave(gaps, terms);
  }

  lemma {:induction false} TermsAreSetApart(query: string) returns (gaps: seq<string>)
    ensures SetsApart(query, gaps, Terms(query))
    decreases |query|
  {
    hide SetsApart;
    if query == "" {
      gaps := [""];
      assert SetsApart(query, gaps, []) by {
        NothingSetApart();
      }
    } else if Text.IsWhitespace(query[0]) {
      gaps := TermsAreSetApart(query[1..]);
      gaps := WidenGap(query[0], query[1..], gaps, Terms(query));
      assert query == [query[0]] + query[1..];
    } else {
      var n := WordLength(query);
      gaps := TermsAreSetApart(query[n..]);
      gaps := AddWord(query[..n], query[n..], gaps, Terms(query[n..]));
      assert query == query[..n] + query[n..];
    }
  }

  lemma NothingSetApart()
    ensures SetsApart("", [""], [])
  {
  }

  /**
   * Reading back the printed query gives the whitespace-separated terms of the input and
   * nothing else; printing fails exactly for a blank input.
   */
  lemma PrintedQueryReadsBack(query: string, terms: seq<string>)
    ensures CreateFtsQuery(query).Ok? <==> !Text.IsBlank(query)
    ensures CreateFtsQuery(query).Ok? ==>
              (ReadQuery(CreateFtsQuery(query).value) == Some(terms)
               <==> exists gaps :: SetsApart(query, gaps, terms))
  {
    forall gaps | SetsApart(query, gaps, terms)
      ensures terms == Terms(query)
    {
      SetApartTermsAreUnique(query, gaps, terms);
    }
    var gaps := TermsAreSetApart(query);
    var found := Terms(query);
    if found == [] {
      assert query == gaps[0];
    } else {
      ReadJoined(found);
      assert IsWord(found[0]);
      assert query == gaps[0] + found[0] + Weave(gaps[1..], found[1..]);
      assert query[|gaps[0]|] == found[0][0];
    }
  }
}
