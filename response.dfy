/** Extracting the commit message from the events of one completion call:
    the first result event is consulted, then the first assistant event. */
module Response {
  import opened Wrappers
  import opened JsString

  /** One element of an assistant message's content. */
  datatype Part = TextPart(text: string) | OtherPart

  /** The events the completion call yields. */
  datatype Event =
    | ResultEvent(result: string)
    | AssistantEvent(content: seq<Part>)
    | OtherEvent

  datatype EventKind = ResultKind | AssistantKind

  predicate IsKind(e: Event, kind: EventKind)
  {
    match kind
    case ResultKind => e.ResultEvent?
    case AssistantKind => e.AssistantEvent?
  }

  /** `messages.find(msg => msg.type === kind)`: the index of the first event
      of that kind, or none when there is no such event. */
  function FindFirst(es: seq<Event>, kind: EventKind): (r: Option<nat>)
    ensures r.Some? ==> r.value < |es| && IsKind(es[r.value], kind)
                        && forall j :: 0 <= j < r.value ==> !IsKind(es[j], kind)
    ensures r.None? <==> forall j :: 0 <= j < |es| ==> !IsKind(es[j], kind)
  {
    if es == [] then None
    else if IsKind(es[0], kind) then Some(0)
    else match FindFirst(es[1..], kind)
         case None => None
         case Some(i) => Some(i + 1)
  }

  /** The text the first assistant event offers: the text of its first
      content element, when that element is a text part with non-empty text. */
  function AssistantText(e: Event): Option<string>
    requires e.AssistantEvent?
  {
    if |e.content| > 0 && e.content[0].TextPart? && e.content[0].text != "" then Some(e.content[0].text)
    else None
  }

  /** The reply of one call: the trimmed result of the first result event
      when that result is non-empty, otherwise the trimmed text of the first
      assistant event when it has some, otherwise none. */
  function Extract(es: seq<Event>): (r: Option<string>)
  {
    var ri := FindFirst(es, ResultKind);
    if ri.Some? && es[ri.value].result != "" then Some(Trim(es[ri.value].result))
    else
      var ai := FindFirst(es, AssistantKind);
      if ai.Some? && AssistantText(es[ai.value]).Some? then Some(Trim(AssistantText(es[ai.value]).value))
      else None
  }

  /** A non-empty result in the first result event wins, wherever the
      assistant events are. */
  lemma ResultPreferred(es: seq<Event>, i: nat)
    requires i < |es| && es[i].ResultEvent? && es[i].result != ""
    requires forall j :: 0 <= j < i ==> !es[j].ResultEvent?
    ensures Extract(es) == Some(Trim(es[i].result))
  {
    var ri := FindFirst(es, ResultKind);
    assert IsKind(es[i], ResultKind);
    assert ri.Some?;
  }

  /** When the first result event, if there is one, has an empty result,
      the first assistant event's leading text part is used, whatever later
      result events hold. */
  lemma AssistantFallback(es: seq<Event>, i: nat, text: string)
    requires forall j :: 0 <= j < |es| && es[j].ResultEvent? && (forall k :: 0 <= k < j ==> !es[k].ResultEvent?)
                         ==> es[j].result == ""
    requires i < |es| && es[i].AssistantEvent? && |es[i].content| > 0 && es[i].content[0] == TextPart(text)
    requires text != ""
    requires forall j :: 0 <= j < i ==> !es[j].AssistantEvent?
    ensures Extract(es) == Some(Trim(text))
  {
    var ri := FindFirst(es, ResultKind);
    if ri.Some? {
      assert forall k :: 0 <= k < ri.value ==> !es[k].ResultEvent? by {
        forall k | 0 <= k < ri.value ensures !es[k].ResultEvent? { assert !IsKind(es[k], ResultKind); }
      }
    }
    var ai := FindFirst(es, AssistantKind);
    assert IsKind(es[i], AssistantKind);
    assert ai.Some?;
  }

  /** Only the FIRST result event is consulted: when its result is empty, a
      later result event with text is ignored. */
  lemma LaterResultIgnored(later: string)
    requires later != ""
    ensures Extract([ResultEvent(""), ResultEvent(later)]) == None
  {
    assert FindFirst([ResultEvent(""), ResultEvent(later)], ResultKind) == Some(0);
  }

  /** An empty first result event hands over to the assistant text even
      when a later result event has text. */
  lemma FallbackPastLaterResult(later: string, text: string)
    requires later != "" && text != ""
    ensures Extract([ResultEvent(""), ResultEvent(later), AssistantEvent([TextPart(text)])]) == Some(Trim(text))
  {
    var es := [ResultEvent(""), ResultEvent(later), AssistantEvent([TextPart(text)])];
    forall j | 0 <= j < |es| && es[j].ResultEvent? && (forall k :: 0 <= k < j ==> !es[k].ResultEvent?)
      ensures es[j].result == ""
    {
      assert es[0].ResultEvent?;
    }
    AssistantFallback(es, 2, text);
  }

  /** A call yields no reply exactly when neither the first result event nor
      the first assistant event offers non-empty text. */
  lemma NoReplyIff(es: seq<Event>)
    ensures Extract(es).None? <==>
      && (forall i :: (0 <= i < |es| && es[i].ResultEvent? && forall j :: 0 <= j < i ==> !es[j].ResultEvent?)
                      ==> es[i].result == "")
      && (forall i :: (0 <= i < |es| && es[i].AssistantEvent? && forall j :: 0 <= j < i ==> !es[j].AssistantEvent?)
                      ==> AssistantText(es[i]).None?)
  {
    var ri := FindFirst(es, ResultKind);
    var ai := FindFirst(es, AssistantKind);
    forall i | 0 <= i < |es| && es[i].ResultEvent? && (forall j :: 0 <= j < i ==> !es[j].ResultEvent?)
      ensures ri == Some(i)
    {
      assert IsKind(es[i], ResultKind);
    }
    forall i | 0 <= i < |es| && es[i].AssistantEvent? && (forall j :: 0 <= j < i ==> !es[j].AssistantEvent?)
      ensures ai == Some(i)
    {
      assert IsKind(es[i], AssistantKind);
    }
    if ri.Some? {
      assert forall j :: 0 <= j < ri.value ==> !es[j].ResultEvent? by {
        forall j | 0 <= j < ri.value ensures !es[j].ResultEvent? { assert !IsKind(es[j], ResultKind); }
      }
    }
    if ai.Some? {
      assert forall j :: 0 <= j < ai.value ==> !es[j].AssistantEvent? by {
        forall j | 0 <= j < ai.value ensures !es[j].AssistantEvent? { assert !IsKind(es[j], AssistantKind); }
      }
    }
  }

  /** The reply is a trimmed piece of the text it was taken from: nothing is
      added, only surrounding whitespace is removed, and it may be empty. */
  lemma ReplyIsTrimmed(es: seq<Event>)
    requires Extract(es).Some?
    ensures exists t :: t != "" && Extract(es).value == Trim(t)
                        && exists e :: e in es && (e == ResultEvent(t) || (e.AssistantEvent? && |e.content| > 0 && e.content[0] == TextPart(t)))
    ensures Trim(Extract(es).value) == Extract(es).value
  {
    var ri := FindFirst(es, ResultKind);
    var ai := FindFirst(es, AssistantKind);
    var t: string;
    if ri.Some? && es[ri.value].result != "" {
      t := es[ri.value].result;
      assert es[ri.value] == ResultEvent(t);
    } else {
      var e := es[ai.value];
      t := e.content[0].text;
      assert e.content[0] == TextPart(t);
    }
    TrimIdempotent(t);
  }
}
