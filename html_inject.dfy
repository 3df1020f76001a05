/**
 The HTML-rewriting middleware (serve.go:89-111), as a function of the
 response of the handler it wraps. The source defines it but `main` never
 installs it (serve.go:124-125 registers the bare file server), so the
 program serves no rewritten page. The wrapped response is buffered; when its Content-Type starts with "text/html", the
 reload script is inserted before the first `</head>` and Content-Length is
 set to the new length; any other response is passed on as buffered.
 Characters stand for the bytes of the buffered body.
 */
module HtmlInject {
  import opened Text

  const HeadClose := "</head>"

  /** The script the middleware would insert: it opens an event stream on `sse` and reloads the page on any message. */
  const ScriptTag := "<script type=\"text/javascript\">new EventSource(\"sse\").onmessage=()=>window.location.reload()</script>"

  const HtmlType := "text/html"

  /** What the middleware emits: the body and, when it sets one, the Content-Length header. */
  datatype Emitted = Emitted(body: string, contentLength: Option<nat>)

  predicate IsHtml(contentType: string)
  {
    HasPrefix(contentType, HtmlType)
  }

  /**
   The response the middleware writes for a buffered body whose
   Content-Type header is `contentType` (empty when it is not set).
   */
  function Rewrite(contentType: string, buffered: string): (e: Emitted)
    ensures !IsHtml(contentType) ==> e == Emitted(buffered, None)
    ensures IsHtml(contentType) ==> e.contentLength == Some(|e.body|)
    ensures IsHtml(contentType) && Absent(buffered, HeadClose) ==> e.body == buffered
    ensures forall i :: IsHtml(contentType) && FirstMatch(buffered, HeadClose, i) ==>
      e.body == buffered[..i] + ScriptTag + buffered[i..]
  {
    if IsHtml(contentType) then
      var modified := ReplaceFirst(buffered, HeadClose, ScriptTag + HeadClose);
      assert forall i :: FirstMatch(buffered, HeadClose, i) ==>
        buffered[..i] + (ScriptTag + HeadClose) + buffered[i + |HeadClose|..] == buffered[..i] + ScriptTag + buffered[i..] by {
        forall i | FirstMatch(buffered, HeadClose, i)
          ensures buffered[..i] + (ScriptTag + HeadClose) + buffered[i + |HeadClose|..] == buffered[..i] + ScriptTag + buffered[i..]
        {
          assert buffered[i..] == HeadClose + buffered[i + |HeadClose|..];
        }
      }
      Emitted(modified, Some(|modified|))
    else
      Emitted(buffered, None)
  }

  /**
   An HTML page with a `</head>` grows by exactly the script, and the
   Content-Length set is the new length.
   */
  lemma GrowsByScript(contentType: string, buffered: string, j: int)
    requires IsHtml(contentType) && MatchAt(buffered, HeadClose, j)
    ensures |Rewrite(contentType, buffered).body| == |buffered| + |ScriptTag|
    ensures Rewrite(contentType, buffered).contentLength == Some(|buffered| + |ScriptTag|)
  {
    var e := Rewrite(contentType, buffered);
    match FindFirst(buffered, HeadClose)
    case Some(i) =>
      assert e.body == buffered[..i] + ScriptTag + buffered[i..];
      assert |buffered[..i]| + |buffered[i..]| == |buffered|;
    case None =>
  }

  /**
   The script is the only change: the text before the first `</head>` and
   everything from it on are kept, so cutting the script out of the output
   gives back the page as buffered.
   */
  lemma ScriptIsTheOnlyChange(contentType: string, buffered: string, i: int)
    requires IsHtml(contentType) && FirstMatch(buffered, HeadClose, i)
    ensures var out := Rewrite(contentType, buffered).body;
      && out[..i] == buffered[..i]
      && out[i..i + |ScriptTag|] == ScriptTag
      && out[i + |ScriptTag|..] == buffered[i..]
      && out[..i] + out[i + |ScriptTag|..] == buffered
  {
    var out := Rewrite(contentType, buffered).body;
    assert out == buffered[..i] + ScriptTag + buffered[i..];
    assert out[..i] == buffered[..i];
    assert out[i..i + |ScriptTag|] == ScriptTag;
    assert out[i + |ScriptTag|..] == buffered[i..];
    assert buffered[..i] + buffered[i..] == buffered;
  }

  /** Every later `</head>` is left in place, shifted by the length of the script. */
  lemma LaterHeadsKept(contentType: string, buffered: string, i: int, j: int)
    requires IsHtml(contentType) && FirstMatch(buffered, HeadClose, i)
    requires MatchAt(buffered, HeadClose, j)
    ensures i <= j
    ensures MatchAt(Rewrite(contentType, buffered).body, HeadClose, j + |ScriptTag|)
  {
    ScriptIsTheOnlyChange(contentType, buffered, i);
    MatchInSharedSuffix(Rewrite(contentType, buffered).body, buffered, i + |ScriptTag|, i, HeadClose, j);
  }
}
