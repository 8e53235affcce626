/** `cleanOpenAIResponse`, which strips the wrapping a language model puts
    around a JSON reply (quotes, Markdown code fences, escaped and real line
    breaks, surrounding white space), and `getSystemMessageContent`, which
    picks the longest assistant text of a thread. */
module ResponseUtils {
  import opened JsValues
  import Seqs

  /** `r` is a contiguous piece of `s`. */
  ghost predicate IsSlice(r: string, s: string)
  {
    exists i, j :: 0 <= i <= j <= |s| && r == s[i..j]
  }

  /** Every slice of `s` is a contiguous piece of it. */
  lemma SliceOf(s: string, i: nat, j: nat)
    requires i <= j <= |s|
    ensures IsSlice(s[i..j], s)
  {
  }

  /** A piece of a piece of `c` is a piece of `c`. */
  lemma SliceTrans(a: string, b: string, c: string)
    requires IsSlice(a, b) && IsSlice(b, c)
    ensures IsSlice(a, c)
  {
    var i, j :| 0 <= i <= j <= |b| && a == b[i..j];
    var k, l :| 0 <= k <= l <= |c| && b == c[k..l];
    assert |b| == l - k;
    forall n | 0 <= n < j - i ensures a[n] == c[k + i + n] {
      assert a[n] == b[i + n] == c[k + i + n];
    }
    assert a == c[k + i..k + j];
  }

  /** A piece holds no character its whole does not. */
  lemma SliceChars(r: string, s: string)
    requires IsSlice(r, s)
    ensures forall ch :: ch in r ==> ch in s
  {
    var i, j :| 0 <= i <= j <= |s| && r == s[i..j];
    forall ch | ch in r ensures ch in s {
      var k :| 0 <= k < |r| && r[k] == ch;
      assert s[i + k] == ch;
    }
  }

  /** Whether `s` both starts and ends with a double quote. */
  predicate Quoted(s: string)
  {
    |s| >= 1 && s[0] == '"' && s[|s| - 1] == '"'
  }

  /** `if (s.startsWith('"') && s.endsWith('"')) s = s.slice(1, -1)`; a lone
      quote becomes the empty string. */
  function StripQuotes(s: string): (r: string)
    ensures Quoted(s) ==> |r| == (if |s| >= 2 then |s| - 2 else 0)
    ensures !Quoted(s) ==> r == s
    ensures IsSlice(r, s)
  {
    if Quoted(s) then
      if |s| >= 2 then (SliceOf(s, 1, |s| - 1); s[1..|s| - 1]) else (SliceOf(s, 0, 0); "")
    else
      (SliceOf(s, 0, |s|); assert s[0..|s|] == s; s)
  }

  /** Quoting a text and stripping the quotes gives the text back. */
  lemma StripQuotesInverse(t: string)
    ensures StripQuotes("\"" + t + "\"") == t
  {
    var q := "\"" + t + "\"";
    assert q[1..|q| - 1] == t;
  }

  /** The replacement of the opening fence ```` ```tag ```` and the white
      space after it (`\s` repeated) by nothing, when `s` starts with the fence. */
  function StripFence(s: string, tag: string): (r: string)
    ensures IsSlice(r, s)
    ensures !("```" + tag <= s) ==> r == s
  {
    var p := "```" + tag;
    if p <= s then
      var k := |p| + LeadingSpaces(s[|p|..]);
      SliceOf(s, k, |s|);
      s[k..]
    else
      SliceOf(s, 0, |s|);
      assert s[0..|s|] == s;
      s
  }

  /** A fence, white space and a text that does not start with white space:
      stripping the fence leaves the text. */
  lemma StripFenceInverse(tag: string, spaces: string, t: string)
    requires forall i :: 0 <= i < |spaces| ==> IsJsSpace(spaces[i])
    requires t == [] || !IsJsSpace(t[0])
    ensures StripFence("```" + tag + spaces + t, tag) == t
  {
    var p := "```" + tag;
    var s := p + spaces + t;
    assert s[|p|..] == spaces + t;
    LeadingSpacesOf(spaces, t);
    assert s[|p| + |spaces|..] == t;
  }

  /** White space followed by a text that does not start with white space: the leading white space is exactly the former. */
  lemma {:induction false} LeadingSpacesOf(spaces: string, t: string)
    requires forall i :: 0 <= i < |spaces| ==> IsJsSpace(spaces[i])
    requires t == [] || !IsJsSpace(t[0])
    ensures LeadingSpaces(spaces + t) == |spaces|
  {
    if spaces != [] {
      LeadingSpacesOf(spaces[1..], t);
      assert (spaces + t)[1..] == spaces[1..] + t;
    } else {
      assert spaces + t == t;
    }
  }

  /** `s.replace(/```$/, "")`: a closing fence is removed only when it ends `s`. */
  function StripClosingFence(s: string): (r: string)
    ensures IsSlice(r, s)
    ensures |s| >= 3 && s[|s| - 3..] == "```" ==> |r| == |s| - 3
    ensures !(|s| >= 3 && s[|s| - 3..] == "```") ==> r == s
  {
    if |s| >= 3 && s[|s| - 3..] == "```" then
      SliceOf(s, 0, |s| - 3);
      s[..|s| - 3]
    else
      SliceOf(s, 0, |s|);
      assert s[0..|s|] == s;
      s
  }

  /** Appending a closing fence and stripping it gives the text back. */
  lemma StripClosingFenceInverse(t: string)
    ensures StripClosingFence(t + "```") == t
  {
    var s := t + "```";
    assert s[|s| - 3..] == "```";
    assert s[..|s| - 3] == t;
  }

  /** The three opening fences in the order they are tried (each at most
      once), then the closing fence. */
  function Unfence(s: string): (r: string)
    ensures IsSlice(r, s)
  {
    var a := StripFence(s, "json");
    var b := StripFence(a, "javascript");
    var c := StripFence(b, "markdown");
    SliceTrans(b, a, s);
    SliceTrans(c, b, s);
    SliceTrans(StripClosingFence(c), c, s);
    StripClosingFence(c)
  }

  /** `s.replace(/\\n/g, "")`: every backslash-`n` pair met scanning left to
      right is deleted. */
  function RemoveEscapedNewlines(s: string): (r: string)
    ensures |r| <= |s|
    ensures forall c :: c in r ==> c in s
    ensures '\\' !in s ==> r == s
  {
    if |s| < 2 then s
    else if s[0] == '\\' && s[1] == 'n' then RemoveEscapedNewlines(s[2..])
    else [s[0]] + RemoveEscapedNewlines(s[1..])
  }

  /** `s.replace(/\n/g, "")`: every line feed is deleted. */
  function RemoveNewlines(s: string): (r: string)
    ensures forall c :: c in r <==> c in s && c != '\n'
    ensures '\n' !in s ==> r == s
  {
    if s == [] then []
    else (if s[0] == '\n' then [] else [s[0]]) + RemoveNewlines(s[1..])
  }

  /** Line feeds are deleted wherever they stand and nothing else is touched:
      the deletion works on the parts of a text separately (with
      `RemoveNewlinesChar`, this fixes the result of every text). */
  lemma {:induction false} RemoveNewlinesAppend(a: string, b: string)
    ensures RemoveNewlines(a + b) == RemoveNewlines(a) + RemoveNewlines(b)
    decreases |a|
  {
    if a == [] {
      assert a + b == b;
    } else {
      var head: string := if a[0] == '\n' then [] else [a[0]];
      assert (a + b)[1..] == a[1..] + b && (a + b)[0] == a[0];
      RemoveNewlinesAppend(a[1..], b);
      assert RemoveNewlines(a + b) == head + (RemoveNewlines(a[1..]) + RemoveNewlines(b));
      Seqs.ConcatAssoc(head, RemoveNewlines(a[1..]), RemoveNewlines(b));
    }
  }

  /** A single character is deleted exactly when it is a line feed. */
  lemma RemoveNewlinesChar(c: char)
    ensures RemoveNewlines([c]) == if c == '\n' then [] else [c]
  {
    assert [c][1..] == [];
  }

  /** The deletion of backslash-`n` pairs works on the parts of a text
      separately when the left part does not end in a backslash (with
      `RemoveEscapedNewlinesPieces`, this fixes the result of every text). */
  lemma {:induction false} RemoveEscapedNewlinesAppend(a: string, b: string)
    requires a == [] || a[|a| - 1] != '\\'
    ensures RemoveEscapedNewlines(a + b) == RemoveEscapedNewlines(a) + RemoveEscapedNewlines(b)
    decreases |a|
  {
    var ab := a + b;
    if a == [] {
      assert ab == b;
    } else if |a| >= 2 && a[0] == '\\' && a[1] == 'n' {
      assert ab[0] == a[0] && ab[1] == a[1];
      assert ab[2..] == a[2..] + b;
      RemoveEscapedNewlinesAppend(a[2..], b);
    } else if |a| == 1 {
      assert a[0] != '\\' && ab[0] == a[0] && |ab| == 1 + |b|;
      assert ab[1..] == b;
      assert RemoveEscapedNewlines(a) == a;
      if |ab| >= 2 {
        assert RemoveEscapedNewlines(ab) == a + RemoveEscapedNewlines(b);
      } else {
        assert ab == a && b == [];
      }
    } else {
      assert ab[0] == a[0] && ab[1] == a[1];
      assert ab[1..] == a[1..] + b;
      RemoveEscapedNewlinesAppend(a[1..], b);
      assert RemoveEscapedNewlines(a) == [a[0]] + RemoveEscapedNewlines(a[1..]);
      Seqs.ConcatAssoc([a[0]], RemoveEscapedNewlines(a[1..]), RemoveEscapedNewlines(b));
    }
  }

  /** A backslash-`n` pair alone is deleted, and a single character is kept. */
  lemma RemoveEscapedNewlinesPieces()
    ensures RemoveEscapedNewlines("\\n") == []
    ensures forall c: char :: RemoveEscapedNewlines([c]) == [c]
  {
    assert "\\n"[2..] == [];
  }

  /** `cleanOpenAIResponse(raw, preserveNewLines)`. */
  function CleanOpenAIResponse(raw: string, preserveNewLines: bool): string
  {
    var d := Unfence(StripQuotes(raw));
    if preserveNewLines then Trim(d) else Trim(RemoveNewlines(RemoveEscapedNewlines(d)))
  }

  /** In both modes the result has no white space at either end; by default
      it holds no line feed. */
  lemma CleanedShape(raw: string, preserveNewLines: bool)
    ensures var r := CleanOpenAIResponse(raw, preserveNewLines);
            && (r == [] || (!IsJsSpace(r[0]) && !IsJsSpace(r[|r| - 1])))
            && (!preserveNewLines ==> '\n' !in r)
  {
    var d := Unfence(StripQuotes(raw));
    if !preserveNewLines {
      var e := RemoveNewlines(RemoveEscapedNewlines(d));
      assert CleanOpenAIResponse(raw, false) == Trim(e);
      TrimKeepsAbsent(e, '\n');
    } else {
      assert CleanOpenAIResponse(raw, true) == Trim(d);
    }
  }

  /** Trimming adds no character. */
  lemma TrimKeepsAbsent(e: string, c: char)
    requires c !in e
    ensures c !in Trim(e)
  {
    SliceOf(e, LeadingSpaces(e), LeadingSpaces(e) + |Trim(e)|);
    SliceChars(Trim(e), e);
  }

  /** Keeping line breaks, the result is one contiguous piece of the raw
      reply: nothing inside it is deleted. */
  lemma PreservedIsSlice(raw: string)
    ensures IsSlice(CleanOpenAIResponse(raw, true), raw)
  {
    var u := StripQuotes(raw);
    var d := Unfence(u);
    SliceTrans(d, u, raw);
    SliceOf(d, LeadingSpaces(d), LeadingSpaces(d) + |Trim(d)|);
    SliceTrans(Trim(d), d, raw);
  }

  /** On a reply with neither line feeds nor backslashes the two modes agree. */
  lemma ModesAgree(raw: string)
    requires '\n' !in raw && '\\' !in raw
    ensures CleanOpenAIResponse(raw, false) == CleanOpenAIResponse(raw, true)
  {
    var u := StripQuotes(raw);
    var d := Unfence(u);
    SliceTrans(d, u, raw);
    SliceChars(d, raw);
  }

  /** A fenced JSON reply with a trailing fence comes out as its body. */
  lemma FencedJsonExample()
    ensures CleanOpenAIResponse("```json\n{}\n```", false) == "{}"
  {
    UnquotedExample();
    UnfenceExample();
    NewlineRemovalExample();
    TrimExample();
  }

  /** The fenced example is not quoted. */
  lemma UnquotedExample()
    ensures StripQuotes("```json\n{}\n```") == "```json\n{}\n```"
  {
    assert !Quoted("```json\n{}\n```");
  }

  /** Both fences of the example come off; the line feed before the closing one stays. */
  lemma UnfenceExample()
    ensures Unfence("```json\n{}\n```") == "{}\n"
  {
    var a := "{}\n```";
    OpeningFenceExample();
    assert StripFence(a, "javascript") == a by { assert a[0] != ("```" + "javascript")[0]; }
    assert StripFence(a, "markdown") == a by { assert a[0] != ("```" + "markdown")[0]; }
    assert a == "{}\n" + "```";
    StripClosingFenceInverse("{}\n");
  }

  /** The opening fence and the line feed after it come off. */
  lemma OpeningFenceExample()
    ensures StripFence("```json\n{}\n```", "json") == "{}\n```"
  {
    assert "```json\n{}\n```" == "```" + "json" + "\n" + "{}\n```";
    StripFenceInverse("json", "\n", "{}\n```");
  }

  /** The body has no escaped newline, and its line feed is deleted. */
  lemma NewlineRemovalExample()
    ensures RemoveEscapedNewlines("{}\n") == "{}\n"
    ensures RemoveNewlines("{}\n") == "{}"
  {
    assert '\\' !in "{}\n";
    assert "{}\n"[1..] == "}\n" && "}\n"[1..] == "\n" && "\n"[1..] == [];
  }

  /** The body has no white space to trim. */
  lemma TrimExample()
    ensures Trim("{}") == "{}"
  {
    assert LeadingSpaces("{}") == 0;
    assert TrailingSpaces("{}") == 0;
  }

  /** One part of a thread message: its `type`, and the `text.value` of a
      part that has a `text` property. */
  datatype ContentPart = ContentPart(kind: string, text: Option<string>)

  datatype Message = Message(role: string, content: seq<ContentPart>)

  /** The filter and map of `getSystemMessageContent`: the texts of assistant
      messages whose first part is text. Reading the first part of an
      assistant message without parts throws a TypeError. */
  function AssistantTexts(messages: seq<Message>): (r: Outcome<seq<string>>)
    ensures r.Threw? <==> exists i :: 0 <= i < |messages| && messages[i].role == "assistant" && messages[i].content == []
    ensures r.Threw? ==> r.exception == TypeError
    ensures r.Returned? ==> |r.value| <= |messages|
  {
    if messages == [] then Returned([])
    else
      var m := messages[0];
      var rest := AssistantTexts(messages[1..]);
      assert forall i :: 1 <= i < |messages| ==> messages[i] == messages[1..][i - 1];
      if m.role == "assistant" && m.content == [] then Threw(TypeError)
      else if rest.Threw? then rest
      else if m.role == "assistant" && m.content[0].kind == "text" then
        Returned([if m.content[0].text.Some? then m.content[0].text.value else ""] + rest.value)
      else rest
  }

  /** The first text of greatest `length` (in UTF-16 code units), as a
      stable sort by `b.length - a.length` puts it first; "" when there is none. */
  function FirstLongest(texts: seq<string>): (r: string)
    ensures texts == [] ==> r == ""
    ensures texts != [] ==> r in texts
    ensures forall t :: t in texts ==> Utf16Length(t) <= Utf16Length(r)
  {
    if texts == [] then ""
    else
      var rest := FirstLongest(texts[1..]);
      assert forall t :: t in texts ==> t == texts[0] || t in texts[1..];
      if Utf16Length(texts[0]) >= Utf16Length(rest) then texts[0] else rest
  }

  /** No text before the chosen one is as long as it. */
  lemma {:induction false} FirstLongestIsFirst(texts: seq<string>)
    requires texts != []
    ensures exists k :: 0 <= k < |texts| && texts[k] == FirstLongest(texts) &&
                        forall j :: 0 <= j < k ==> Utf16Length(texts[j]) < Utf16Length(FirstLongest(texts))
  {
    if Utf16Length(texts[0]) < Utf16Length(FirstLongest(texts[1..])) {
      FirstLongestIsFirst(texts[1..]);
      var k :| 0 <= k < |texts[1..]| && texts[1..][k] == FirstLongest(texts[1..]) &&
               forall j :: 0 <= j < k ==> Utf16Length(texts[1..][j]) < Utf16Length(FirstLongest(texts[1..]));
      assert texts[k + 1] == FirstLongest(texts);
      forall j | 0 <= j < k + 1 ensures Utf16Length(texts[j]) < Utf16Length(FirstLongest(texts)) {
        if j > 0 { assert texts[j] == texts[1..][j - 1]; }
      }
    } else {
      assert texts[0] == FirstLongest(texts);
    }
  }

  /** `getSystemMessageContent(page)`: the longest assistant text, or "". */
  function GetSystemMessageContent(messages: seq<Message>): (r: Outcome<string>)
    ensures r.Threw? <==> AssistantTexts(messages).Threw?
  {
    match AssistantTexts(messages)
    case Threw(e) => Threw(e)
    case Returned(texts) => Returned(FirstLongest(texts))
  }

  /** The content returned is an assistant text no other assistant text is
      longer than, or "" when there is none. */
  lemma SystemMessageIsLongest(messages: seq<Message>)
    requires GetSystemMessageContent(messages).Returned?
    ensures var r := GetSystemMessageContent(messages).value;
            var texts := AssistantTexts(messages).value;
            && (texts == [] ==> r == "")
            && (texts != [] ==> r in texts)
            && forall t :: t in texts ==> Utf16Length(t) <= Utf16Length(r)
  {
  }

  /** Length is measured as JavaScript measures it: three rockets (each a
      surrogate pair, six code units) outweigh five letters. */
  lemma AstralTextsCountDouble()
    ensures FirstLongest(["\U{1F680}\U{1F680}\U{1F680}", "abcde"]) == "\U{1F680}\U{1F680}\U{1F680}"
  {
    var rockets := "\U{1F680}\U{1F680}\U{1F680}";
    assert rockets[..2][..1] == rockets[..1] && rockets[..1][..0] == [] && rockets[..3] == rockets;
    assert Utf16Length(rockets) == 6;
    Utf16LengthBmp("abcde");
  }
}
