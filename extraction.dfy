/** The extraction callback that `scrapeNewMessages` runs inside the page
    (src/puppeteer/puppeteer.service.ts:177-207). The page is given as the
    two element lists its CSS queries return; each element as the few values
    the callback reads from it. */
module Extraction {
  import opened Messages
  import opened JsText

  /** One element matched by a query, as the callback sees it. */
  datatype Element = Element(
    /** `textContent || ''` */
    text: string,
    /** `getAttribute('data-id')` */
    dataId: Option<string>,
    /** the element's `id` property, "" when it has none */
    elementId: string,
    /** text of its first '.message-snippet, .msg-snippet, .item-snippet', if any */
    snippet: Option<string>,
    /** text of its first 'p, span', if any */
    inline: Option<string>,
    /** `new Date().toISOString()` read while the callback handles the element */
    now: string,
    /** `String(Math.random())` drawn while the callback handles the element */
    random: string)

  /** The page: what the conversation selectors match and what the generic
      list-item selectors match. */
  datatype Dom = Dom(conversations: seq<Element>, listItems: seq<Element>)

  /** Which loop of the callback builds the records. */
  datatype Branch = ConversationBranch | ListItemBranch

  const IdTextLength := 40

  /** JavaScript `a || b` on strings: `a` unless it is empty. */
  function Or(a: string, b: string): string {
    if a != "" then a else b
  }

  /** JavaScript `a || b` where `a` may be null. */
  function OrNull(a: Option<string>, b: string): string {
    if a.Some? && a.value != "" then a.value else b
  }

  /** The id of a conversation element: its `data-id`, else its element id,
      else the first 40 characters of its text. */
  function ConversationId(c: Element): (id: string)
    ensures c.dataId.Some? && c.dataId.value != "" ==> id == c.dataId.value
    ensures !(c.dataId.Some? && c.dataId.value != "") && c.elementId != "" ==> id == c.elementId
    ensures !(c.dataId.Some? && c.dataId.value != "") && c.elementId == "" ==>
              |id| == (if |c.text| <= IdTextLength then |c.text| else IdTextLength) && id == c.text[..|id|]
  {
    OrNull(c.dataId, Or(c.elementId, Prefix(c.text, IdTextLength)))
  }

  /** The id of a generic list item: its `data-id`, else its element id, else
      a random number's text. */
  function ListItemId(it: Element): (id: string)
    ensures it.dataId.Some? && it.dataId.value != "" ==> id == it.dataId.value
    ensures !(it.dataId.Some? && it.dataId.value != "") && it.elementId != "" ==> id == it.elementId
    ensures !(it.dataId.Some? && it.dataId.value != "") && it.elementId == "" ==> id == it.random
  {
    OrNull(it.dataId, Or(it.elementId, it.random))
  }

  /** The text a conversation's body is cut from: that of its snippet
      element, else of its first paragraph or span, else its own trimmed text. */
  function SnippetText(c: Element): (text: string)
    ensures c.snippet.Some? ==> text == c.snippet.value
    ensures c.snippet.None? && c.inline.Some? ==> text == c.inline.value
    ensures c.snippet.None? && c.inline.None? ==> text == Trim(c.text)
  {
    if c.snippet.Some? then c.snippet.value
    else if c.inline.Some? then c.inline.value
    else Trim(c.text)
  }

  /** The record the callback pushes for an element whose text names the target. */
  function Record(e: Element, target: string, b: Branch): (x: Scraped)
    ensures x.from == target && Trimmed(x.body) && x.date == e.now
    ensures x.id == (if b.ConversationBranch? then ConversationId(e) else ListItemId(e))
    ensures b.ListItemBranch? ==> x.body == Trim(e.text)
    ensures b.ConversationBranch? ==> x.body == Trim(SnippetText(e))
    ensures b.ConversationBranch? && e.snippet.None? && e.inline.None? ==> x.body == Trim(e.text)
  {
    match b
    case ConversationBranch =>
      TrimIdempotent(e.text);
      Scraped(ConversationId(e), target, Trim(SnippetText(e)), e.now)
    case ListItemBranch => Scraped(ListItemId(e), target, Trim(e.text), e.now)
  }

  /** The records one loop of the callback pushes for `es`, in order. */
  function Collect(es: seq<Element>, target: string, b: Branch): (out: seq<Scraped>)
    ensures |out| <= |es|
  {
    if es == [] then []
    else
      var init := es[..|es| - 1];
      var e := es[|es| - 1];
      Collect(init, target, b) + (if Includes(e.text, target) then [Record(e, target, b)] else [])
  }

  /** The branch the callback takes: the list-item fallback only when the
      page has no conversation element at all. */
  function BranchOf(dom: Dom): Branch {
    if |dom.conversations| == 0 then ListItemBranch else ConversationBranch
  }

  function Candidates(dom: Dom): seq<Element> {
    if |dom.conversations| == 0 then dom.listItems else dom.conversations
  }

  /** The array the callback returns for `dom`. */
  function Extracted(dom: Dom, target: string): (out: seq<Scraped>)
    ensures |out| <= |Candidates(dom)|
    ensures dom.conversations == [] && dom.listItems == [] ==> out == []
  {
    Collect(Candidates(dom), target, BranchOf(dom))
  }

  /** The callback itself: one loop over the conversations, or over the list
      items when there are none, pushing a record for each element whose text
      includes `targetName`. */
  method Extract(dom: Dom, targetName: string) returns (out: seq<Scraped>)
    ensures out == Extracted(dom, targetName)
  {
    out := [];
    var convs := dom.conversations;
    if |convs| == 0 {
      var items := dom.listItems;
      for i := 0 to |items|
        invariant out == Collect(items[..i], targetName, ListItemBranch)
      {
        var it := items[i];
        CollectSnoc(items, i, targetName, ListItemBranch);
        if Includes(it.text, targetName) {
          out := out + [Scraped(ListItemId(it), targetName, Trim(it.text), it.now)];
        }
      }
      assert items[..|items|] == items;
    } else {
      for i := 0 to |convs|
        invariant out == Collect(convs[..i], targetName, ConversationBranch)
      {
        var c := convs[i];
        CollectSnoc(convs, i, targetName, ConversationBranch);
        var id := ConversationId(c);
        if Includes(c.text, targetName) {
          var snippet := if c.snippet.Some? then c.snippet.value
                         else if c.inline.Some? then c.inline.value
                         else Trim(c.text);
          out := out + [Scraped(id, targetName, Trim(snippet), c.now)];
        }
      }
      assert convs[..|convs|] == convs;
    }
  }

  /** One more element pushes its record when its text includes the target. */
  lemma CollectSnoc(es: seq<Element>, i: nat, target: string, b: Branch)
    requires i < |es|
    ensures Collect(es[..i + 1], target, b)
            == Collect(es[..i], target, b) + (if Includes(es[i].text, target) then [Record(es[i], target, b)] else [])
  {
    assert es[..i + 1][..i] == es[..i];
  }

  /** `x` is the record of some element of `es` whose text includes the target. */
  predicate FromMatching(x: Scraped, es: seq<Element>, target: string, b: Branch) {
    exists j :: 0 <= j < |es| && Includes(es[j].text, target) && x == Record(es[j], target, b)
  }

  /** `x` is among the records `out`. */
  predicate Pushed(x: Scraped, out: seq<Scraped>) {
    exists k :: 0 <= k < |out| && out[k] == x
  }

  /** Every record one loop pushes comes from an element whose text includes
      the target. */
  lemma {:induction false} CollectSound(es: seq<Element>, target: string, b: Branch)
    ensures forall k :: 0 <= k < |Collect(es, target, b)| ==> FromMatching(Collect(es, target, b)[k], es, target, b)
  {
    if es != [] {
      var n := |es| - 1;
      CollectSound(es[..n], target, b);
      CollectSnoc(es, n, target, b);
      assert es[..n + 1] == es;
      var out := Collect(es, target, b);
      var pre := Collect(es[..n], target, b);
      forall k | 0 <= k < |out|
        ensures FromMatching(out[k], es, target, b)
      {
        if k < |pre| {
          FromMatchingPrefix(pre[k], es, n, target, b);
        } else {
          FromMatchingAt(out[k], es, n, target, b);
        }
      }
    }
  }

  /** The record of a matching element is a record from a matching element. */
  lemma FromMatchingAt(x: Scraped, es: seq<Element>, j: nat, target: string, b: Branch)
    requires j < |es| && Includes(es[j].text, target) && x == Record(es[j], target, b)
    ensures FromMatching(x, es, target, b)
  {
  }

  /** A record from an element of a prefix is a record from an element of
      the whole sequence. */
  lemma FromMatchingPrefix(x: Scraped, es: seq<Element>, n: nat, target: string, b: Branch)
    requires n <= |es| && FromMatching(x, es[..n], target, b)
    ensures FromMatching(x, es, target, b)
  {
    var j :| 0 <= j < n && Includes(es[..n][j].text, target) && x == Record(es[..n][j], target, b);
    assert es[..n][j] == es[j];
  }

  /** Every element whose text includes the target has its record pushed. */
  lemma {:induction false} CollectComplete(es: seq<Element>, target: string, b: Branch)
    ensures forall j :: 0 <= j < |es| && Includes(es[j].text, target) ==> Pushed(Record(es[j], target, b), Collect(es, target, b))
  {
    if es != [] {
      var init := es[..|es| - 1];
      CollectComplete(init, target, b);
      var out := Collect(es, target, b);
      var pre := Collect(init, target, b);
      forall j | 0 <= j < |es| && Includes(es[j].text, target)
        ensures Pushed(Record(es[j], target, b), out)
      {
        if j < |init| {
          assert es[j] == init[j];
          var k :| 0 <= k < |pre| && pre[k] == Record(init[j], target, b);
          assert out[k] == pre[k];
        } else {
          assert out[|out| - 1] == Record(es[j], target, b);
        }
      }
    }
  }

  /** Every record the callback returns names the target as sender, has a
      trimmed body, and comes from an element of the branch taken whose text
      includes the target; every such element yields a record. */
  lemma ExtractedMatches(dom: Dom, target: string)
    ensures forall k :: 0 <= k < |Extracted(dom, target)| ==>
              Extracted(dom, target)[k].from == target && Trimmed(Extracted(dom, target)[k].body)
    ensures forall k :: 0 <= k < |Extracted(dom, target)| ==>
              FromMatching(Extracted(dom, target)[k], Candidates(dom), target, BranchOf(dom))
    ensures forall j :: 0 <= j < |Candidates(dom)| && Includes(Candidates(dom)[j].text, target) ==>
              Pushed(Record(Candidates(dom)[j], target, BranchOf(dom)), Extracted(dom, target))
  {
    var out := Extracted(dom, target);
    CollectSound(Candidates(dom), target, BranchOf(dom));
    CollectComplete(Candidates(dom), target, BranchOf(dom));
    forall k | 0 <= k < |out|
      ensures out[k].from == target && Trimmed(out[k].body)
    {
      assert FromMatching(out[k], Candidates(dom), target, BranchOf(dom));
    }
  }

  /** With a non-empty target, every conversation record has a non-empty id:
      its text includes the target, so even the text fallback is non-empty. */
  lemma ConversationIdNonEmpty(c: Element, target: string)
    requires target != "" && Includes(c.text, target)
    ensures ConversationId(c) != ""
  {
    IncludesNonEmpty(c.text, target);
  }
}
