/** `extract_deals_from_gpt`: find the leftmost match of the regular
    expression `\{"deals".*?\]` (with DOTALL, so `.` also matches newlines),
    append `}` to the matched text, hand it to `json.loads` and return the
    parsed object's `deals` entry; no match, a parse failure or a missing
    entry gives the empty list. */
module DealParser {

  import opened Values
  import opened Text

  /** The literal head of the pattern, `{"deals"` (8 characters). */
  const Marker: string := "{\"deals\""
  const Close: string := "]"
  const DealsKey: string := "deals"

  /** The pattern matches `text[p..e]`: the marker at `p`, any characters,
      then a `]` as the last character. */
  ghost predicate PatternMatch(text: string, p: nat, e: nat)
  {
    OccursAt(text, Marker, p) && p + |Marker| < e <= |text| && text[e - 1] == ']'
  }

  /** The match `re.search` reports: the leftmost start at which the pattern
      matches at all, and there the shortest match (`.*?` is lazy). */
  ghost predicate SearchResult(text: string, p: nat, e: nat)
  {
    && PatternMatch(text, p, e)
    && (forall e': nat :: p + |Marker| < e' < e ==> !PatternMatch(text, p, e'))
    && (forall q: nat, e': nat :: q < p ==> !PatternMatch(text, q, e'))
  }

  /** The matched span `[start, end)`, found by two substring searches: the
      first marker, then the first `]` at or after the marker's end. */
  function MatchSpan(text: string): Option<(nat, nat)>
  {
    match IndexOf(text, Marker, 0)
    case None => None
    case Some(p) =>
      match IndexOf(text, Close, p + |Marker|)
      case None => None
      case Some(b) => Some((p, b + 1))
  }

  /** The two searches compute exactly the regular-expression search: a span
      is found iff the pattern matches somewhere, and then it is the leftmost,
      shortest match. */
  lemma MatchSpanIsSearch(text: string)
    ensures MatchSpan(text).Some? ==> SearchResult(text, MatchSpan(text).value.0, MatchSpan(text).value.1)
    ensures MatchSpan(text).None? ==> forall q: nat, e: nat :: !PatternMatch(text, q, e)
  {
    match IndexOf(text, Marker, 0)
    case None =>
    case Some(p) =>
      match IndexOf(text, Close, p + |Marker|)
      case None =>
        forall q: nat, e: nat | PatternMatch(text, q, e) ensures false {
          assert q >= p;
          assert OccursAt(text, Close, e - 1) by { assert text[e - 1..e] == [text[e - 1]]; }
        }
      case Some(b) =>
        assert text[b..b + 1][0] == text[b];
        forall e' | p + |Marker| < e' < b + 1 ensures !PatternMatch(text, p, e') {
          if text[e' - 1] == ']' {
            assert OccursAt(text, Close, e' - 1) by { assert text[e' - 1..e'] == [text[e' - 1]]; }
          }
        }
  }

  /** The text handed to `json.loads`: the matched span followed by `}`. */
  function ParserInput(text: string): Option<string>
  {
    match MatchSpan(text)
    case None => None
    case Some((p, e)) => Some(text[p..e] + "}")
  }

  /** `data.get("deals", [])` on what `json.loads` returned, where a parse
      failure, or `.get` on a value that is not an object, is caught and
      gives `[]`. */
  function DealsEntry(parsed: Option<Json>): Json
  {
    match parsed
    case Some(JObj(fields)) => if DealsKey in fields then fields[DealsKey] else EmptyList
    case _ => EmptyList
  }

  /** `extract_deals_from_gpt(raw_text)` with `json.loads` given as `loads`.
      It never fails: the result is `[]` unless the parser returned an object
      with a `deals` entry for the matched span plus `}`, and then it is that
      entry. */
  function ExtractDeals(raw: string, loads: string -> Option<Json>): (r: Json)
    ensures r != EmptyList ==>
      && ParserInput(raw).Some?
      && loads(ParserInput(raw).value).Some?
      && loads(ParserInput(raw).value).value.JObj?
      && DealsKey in loads(ParserInput(raw).value).value.fields
      && r == loads(ParserInput(raw).value).value.fields[DealsKey]
    ensures
      && ParserInput(raw).Some?
      && loads(ParserInput(raw).value).Some?
      && loads(ParserInput(raw).value).value.JObj?
      && DealsKey in loads(ParserInput(raw).value).value.fields
      ==> r == loads(ParserInput(raw).value).value.fields[DealsKey]
  {
    match ParserInput(raw)
    case None => EmptyList
    case Some(json) => DealsEntry(loads(json))
  }

  /** The cases where extraction degrades to `[]`: no marker; no `]` after the
      first marker; a parse failure; a parsed value that is not an object; an
      object without `deals`. */
  lemma ExtractDegrades(raw: string, loads: string -> Option<Json>)
    ensures (forall q :: !OccursAt(raw, Marker, q)) ==> ExtractDeals(raw, loads) == EmptyList
    ensures (forall q: nat, e: nat :: !PatternMatch(raw, q, e)) ==> ExtractDeals(raw, loads) == EmptyList
    ensures ParserInput(raw).Some? && loads(ParserInput(raw).value).None? ==>
      ExtractDeals(raw, loads) == EmptyList
    ensures (ParserInput(raw).Some? && loads(ParserInput(raw).value).Some?
      && !loads(ParserInput(raw).value).value.JObj?) ==> ExtractDeals(raw, loads) == EmptyList
    ensures (ParserInput(raw).Some? && loads(ParserInput(raw).value).Some?
      && loads(ParserInput(raw).value).value.JObj?
      && DealsKey !in loads(ParserInput(raw).value).value.fields) ==> ExtractDeals(raw, loads) == EmptyList
  {
    MatchSpanIsSearch(raw);
    if MatchSpan(raw).Some? {
      var (p, e) := MatchSpan(raw).value;
      assert PatternMatch(raw, p, e);
    }
  }

  /** The first marker in `pre + Marker + rest` is the one after `pre`. */
  lemma MarkerAfterPre(pre: string, rest: string)
    requires forall i :: 0 <= i < |pre| ==> pre[i] != '{'
    ensures IndexOf(pre + Marker + rest, Marker, 0) == Some(|pre|)
  {
    var text := pre + Marker + rest;
    assert OccursAt(text, Marker, |pre|) by { assert text[|pre|..|pre| + |Marker|] == Marker; }
    forall q: nat | q < |pre| ensures !OccursAt(text, Marker, q) {
      if q + |Marker| <= |text| {
        assert text[q..q + |Marker|][0] == pre[q];
      }
    }
    IndexOfFirst(text, Marker, 0, |pre|);
  }

  /** The first `]` at or after the end of `head` is the one after `body`. */
  lemma CloseAfterBody(head: string, body: string, post: string)
    requires forall i :: 0 <= i < |body| ==> body[i] != ']'
    ensures IndexOf(head + body + Close + post, Close, |head|) == Some(|head| + |body|)
  {
    var text := head + body + Close + post;
    var b := |head| + |body|;
    assert OccursAt(text, Close, b) by { assert text[b..b + 1] == Close; }
    forall q: nat | |head| <= q < b ensures !OccursAt(text, Close, q) {
      assert text[q] == body[q - |head|];
      assert text[q..q + 1][0] == text[q];
    }
    IndexOfFirst(text, Close, |head|, b);
  }

  /** A reply made of prose without `{`, the marker, a body without `]`, a
      `]` and anything after: the parser gets the marker, the body, the `]`
      and a closing `}`. For a well-formed reply this is the whole object; a
      `]` inside a deal (a nested list or a string) ends the span there. */
  lemma ParserInputOfReply(pre: string, body: string, post: string)
    requires forall i :: 0 <= i < |pre| ==> pre[i] != '{'
    requires forall i :: 0 <= i < |body| ==> body[i] != ']'
    ensures ParserInput(pre + Marker + body + Close + post) == Some(Marker + body + Close + "}")
  {
    var text := pre + Marker + body + Close + post;
    var p := |pre|;
    var b := |pre| + |Marker| + |body|;
    MarkerAfterPre(pre, body + Close + post);
    assert pre + Marker + (body + Close + post) == text;
    CloseAfterBody(pre + Marker, body, post);
    assert (pre + Marker) + body + Close + post == text;
    assert MatchSpan(text) == Some((p, b + 1));
    assert text[p..b + 1] == Marker + body + Close;
  }
}
