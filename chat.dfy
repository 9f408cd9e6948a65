/** The entry of the chat router: the empty-message guard of `process_message`
    and `_detect_intent`, which sends a message to the record, query or
    analysis handler. */
module Chat {
  import opened Text

  datatype Intent = Record | Query | Analysis

  /** Keywords that make a message a query, checked first. */
  const QueryKeywords: seq<string> := ["花了多少", "多少錢", "查詢", "統計", "報告", "報表", "趨勢", "分析圖"]

  /** Keywords that make a message a request for analysis, checked second. */
  const AnalysisKeywords: seq<string> := ["是不是", "應該", "建議", "幫我", "為什麼", "怎麼", "如何"]

  /** Some keyword of the list occurs in the text. */
  predicate Mentions(text: string, keywords: seq<string>) {
    exists i :: 0 <= i < |keywords| && Contains(text, keywords[i])
  }

  /** `re.search(r'\d+', text)` finds something. */
  predicate HasDigit(text: string) {
    exists k :: 0 <= k < |text| && IsDigit(text[k])
  }

  /** One `for kw in keywords: if kw in text` scan, keyword by keyword. */
  function MentionsAny(text: string, keywords: seq<string>): (found: bool)
    ensures found <==> Mentions(text, keywords)
  {
    if keywords == [] then false
    else if Contains(text, keywords[0]) then true
    else
      var rest := MentionsAny(text, keywords[1..]);
      assert forall i :: 1 <= i < |keywords| ==> keywords[i] == keywords[1..][i - 1];
      rest
  }

  /** The digit test of `_detect_intent`, character by character. */
  function FindDigit(text: string): (found: bool)
    ensures found <==> HasDigit(text)
  {
    if text == [] then false
    else if IsDigit(text[0]) then true
    else
      var rest := FindDigit(text[1..]);
      assert forall k :: 1 <= k < |text| ==> text[k] == text[1..][k - 1];
      rest
  }

  /** `_detect_intent`: query keywords win over analysis keywords, which win
      over digits; a message with none of the three is analysis. */
  function DetectIntent(text: string): (intent: Intent)
    ensures intent == Query <==> Mentions(text, QueryKeywords)
    ensures intent == Analysis <==>
              !Mentions(text, QueryKeywords) && (Mentions(text, AnalysisKeywords) || !HasDigit(text))
    ensures intent == Record <==>
              !Mentions(text, QueryKeywords) && !Mentions(text, AnalysisKeywords) && HasDigit(text)
  {
    if MentionsAny(text, QueryKeywords) then Query
    else if MentionsAny(text, AnalysisKeywords) then Analysis
    else if FindDigit(text) then Record
    else Analysis
  }

  /** What `process_message` does with a message: reply with an error, or hand
      the stripped text to the handler of its intent. */
  datatype Reply = ErrorReply(message: string) | Dispatch(intent: Intent, text: string)

  /** `process_message` up to the handler call: a message that is blank after
      stripping is refused with 請輸入訊息; any other message is dispatched,
      stripped, to the handler of its intent. */
  function ProcessMessage(message: string): (r: Reply)
    ensures r.ErrorReply? <==> Strip(message) == []
    ensures r.ErrorReply? ==> r.message == "請輸入訊息"
    ensures r.Dispatch? ==> r.text == Strip(message) && r.text != []
    ensures r.Dispatch? ==> (r.intent == Query <==> Mentions(r.text, QueryKeywords))
    ensures r.Dispatch? ==> (r.intent == Record <==>
              !Mentions(r.text, QueryKeywords) && !Mentions(r.text, AnalysisKeywords) && HasDigit(r.text))
  {
    var text := Strip(message);
    if text == [] then ErrorReply("請輸入訊息") else Dispatch(DetectIntent(text), text)
  }

  /** Surrounding whitespace never changes the intent: a keyword or digit is
      found in the stripped text exactly when it is found in the message. */
  lemma StripKeepsMentions(message: string, keywords: seq<string>)
    requires forall i :: 0 <= i < |keywords| ==> NoSpace(keywords[i]) && keywords[i] != []
    ensures Mentions(Strip(message), keywords) <==> Mentions(message, keywords)
  {
    if Mentions(message, keywords) {
      var i :| 0 <= i < |keywords| && Contains(message, keywords[i]);
      StripKeepsWord(message, keywords[i]);
    }
    if Mentions(Strip(message), keywords) {
      var i :| 0 <= i < |keywords| && Contains(Strip(message), keywords[i]);
      StripShrinks(message, keywords[i]);
    }
  }

  /** A word of the stripped text is a word of the message. */
  lemma StripShrinks(message: string, w: string)
    requires Contains(Strip(message), w)
    ensures Contains(message, w)
  {
    var off := StripOffset(message);
    ContainedInFactor(message, Strip(message), off, w);
  }

  /** A word of a factor of a text is a word of the text. */
  lemma ContainedInFactor(m: string, s: string, off: nat, w: string)
    requires off + |s| <= |m| && s == m[off..off + |s|] && Contains(s, w)
    ensures Contains(m, w)
  {
    var j :| 0 <= j <= |s| - |w| && OccursAt(s, w, j);
    SliceOfSlice(m, off, off + |s|, j, j + |w|);
    assert OccursAt(m, w, off + j);
  }

  /** A slice of a slice is a slice. */
  lemma SliceOfSlice(m: string, a: nat, b: nat, i: nat, k: nat)
    requires a <= b <= |m| && i <= k <= b - a
    ensures m[a..b][i..k] == m[a + i..a + k]
  {
    forall x | 0 <= x < k - i
      ensures m[a..b][i..k][x] == m[a + i..a + k][x]
    {
      assert m[a..b][i..k][x] == m[a..b][i + x] == m[a + i + x];
    }
  }

  /** Where the stripped text sits inside the message. */
  lemma StripOffset(message: string) returns (off: nat)
    ensures off + |Strip(message)| <= |message|
    ensures Strip(message) == message[off..off + |Strip(message)|]
  {
    var l := TrimLeft(message);
    off := |message| - |l|;
    assert Strip(message) == l[..|Strip(message)|];
  }

  /** No keyword of either list holds a space. */
  lemma KeywordsHaveNoSpace()
    ensures forall i :: 0 <= i < |QueryKeywords| ==> NoSpace(QueryKeywords[i]) && QueryKeywords[i] != []
    ensures forall i :: 0 <= i < |AnalysisKeywords| ==> NoSpace(AnalysisKeywords[i]) && AnalysisKeywords[i] != []
  {
  }

  /** A bookkeeping command such as `午餐 120 元` names no keyword and holds a
      digit, so it is dispatched as a record. */
  lemma LunchCommandIsRecord()
    ensures !Mentions("午餐 120 元", QueryKeywords)
    ensures !Mentions("午餐 120 元", AnalysisKeywords)
    ensures HasDigit("午餐 120 元")
  {
    var t := "午餐 120 元";
    assert IsDigit(t[3]);
    forall i | 0 <= i < |QueryKeywords|
      ensures !Contains(t, QueryKeywords[i])
    {
      NotContainsWithout(t, QueryKeywords[i], 0);
    }
    forall i | 0 <= i < |AnalysisKeywords|
      ensures !Contains(t, AnalysisKeywords[i])
    {
      NotContainsWithout(t, AnalysisKeywords[i], 0);
    }
  }

  /** A question naming both kinds of keyword is a query: `報告怎麼看`. */
  lemma QueryBeatsAnalysis()
    ensures Mentions("報告怎麼看", QueryKeywords)
    ensures Mentions("報告怎麼看", AnalysisKeywords)
  {
    var t := "報告怎麼看";
    assert OccursAt(t, QueryKeywords[4], 0);
    assert OccursAt(t, AnalysisKeywords[5], 2);
  }
}
