/** What the `seenMsgID` filter of `scrapeNewMessages` lets through
    (src/puppeteer/puppeteer.service.ts:211-220), stated on values. The
    service class runs it in place on its set; these functions say what that
    loop computes and the lemmas say what it guarantees. */
module Dedup {
  import opened Messages

  /** The ids of a batch. */
  function Ids(xs: seq<Scraped>): set<string> {
    set x | x in xs :: x.id
  }

  /** The records of `res` the filter keeps when `seen` holds the ids already
      delivered: each record whose id is neither seen nor taken by an earlier
      record of the batch, in batch order. */
  function Kept(seen: set<string>, res: seq<Scraped>): (kept: seq<Scraped>)
    ensures |kept| <= |res|
    decreases |res|
  {
    if res == [] then []
    else if res[0].id in seen then Kept(seen, res[1..])
    else [res[0]] + Kept(seen + {res[0].id}, res[1..])
  }

  lemma IdsSnoc(xs: seq<Scraped>, x: Scraped)
    ensures Ids(xs + [x]) == Ids(xs) + {x.id}
  {
    assert forall y :: y in xs + [x] <==> y in xs || y == x;
  }

  /** The relayed form of a record: its id dropped. */
  function Strip(x: Scraped): MonitoredMessage {
    MonitoredMessage(x.from, x.body, x.date)
  }

  function Strips(xs: seq<Scraped>): (ms: seq<MonitoredMessage>)
    ensures |ms| == |xs| && forall k :: 0 <= k < |xs| ==> ms[k] == Strip(xs[k])
  {
    seq(|xs|, k requires 0 <= k < |xs| => Strip(xs[k]))
  }

  lemma StripsAppend(a: seq<Scraped>, b: seq<Scraped>)
    ensures Strips(a + b) == Strips(a) + Strips(b)
  {
    var ab, l, r := a + b, Strips(a), Strips(b);
    forall k | 0 <= k < |ab| ensures Strips(ab)[k] == (l + r)[k] {
      if k >= |a| {
        assert ab[k] == b[k - |a|];
      } else {
        assert ab[k] == a[k];
      }
    }
  }

  /** The `fresh` array `scrapeNewMessages` returns. */
  function Fresh(seen: set<string>, res: seq<Scraped>): (ms: seq<MonitoredMessage>)
    ensures |ms| <= |res|
    ensures |ms| == |Kept(seen, res)|
  {
    Strips(Kept(seen, res))
  }

  ghost predicate DistinctIds(xs: seq<Scraped>) {
    forall i, j :: 0 <= i < j < |xs| ==> xs[i].id != xs[j].id
  }

  /** `x` occurs in `res`. */
  predicate InBatch(x: Scraped, res: seq<Scraped>) {
    exists j :: 0 <= j < |res| && res[j] == x
  }

  /** The filter delivers at most once: every kept record is a record of the
      batch whose id was not seen, and no two kept records share an id. */
  lemma {:induction false} KeptSound(seen: set<string>, res: seq<Scraped>)
    ensures forall k :: 0 <= k < |Kept(seen, res)| ==> InBatch(Kept(seen, res)[k], res)
    ensures forall k :: 0 <= k < |Kept(seen, res)| ==> Kept(seen, res)[k].id !in seen
    ensures DistinctIds(Kept(seen, res))
    decreases |res|
  {
    if res != [] {
      var x, rest := res[0], res[1..];
      var kept := Kept(seen, res);
      if x.id in seen {
        KeptSound(seen, rest);
        forall k | 0 <= k < |kept| ensures InBatch(kept[k], res) {
          var j :| 0 <= j < |rest| && rest[j] == kept[k];
          assert res[j + 1] == kept[k];
        }
      } else {
        var seen' := seen + {x.id};
        var tail := Kept(seen', rest);
        KeptSound(seen', rest);
        assert kept == [x] + tail;
        forall k | 0 <= k < |kept| ensures InBatch(kept[k], res) && kept[k].id !in seen {
          if k == 0 {
            assert res[0] == kept[k];
          } else {
            assert kept[k] == tail[k - 1];
            var j :| 0 <= j < |rest| && rest[j] == tail[k - 1];
            assert res[j + 1] == kept[k];
          }
        }
        forall i, j | 0 <= i < j < |kept| ensures kept[i].id != kept[j].id {
          assert kept[j] == tail[j - 1];
          if i > 0 {
            assert kept[i] == tail[i - 1];
          }
        }
      }
    }
  }

  /** Nothing new is lost: the ids kept are exactly the ids of the batch that
      were not seen. */
  lemma {:induction false} KeptIds(seen: set<string>, res: seq<Scraped>)
    ensures Ids(Kept(seen, res)) == Ids(res) - seen
    decreases |res|
  {
    if res != [] {
      var x, rest := res[0], res[1..];
      assert Ids(res) == {x.id} + Ids(rest) by {
        assert forall y :: y in res <==> y == x || y in rest;
      }
      if x.id in seen {
        KeptIds(seen, rest);
      } else {
        var tail := Kept(seen + {x.id}, rest);
        KeptIds(seen + {x.id}, rest);
        assert Ids([x] + tail) == {x.id} + Ids(tail) by {
          assert forall y :: y in [x] + tail <==> y == x || y in tail;
        }
      }
    }
  }

  /** The first-occurrence rule: one more record at the end of a batch is
      kept exactly when its id is neither seen nor taken earlier in the batch. */
  lemma {:induction false} KeptSnoc(seen: set<string>, res: seq<Scraped>, x: Scraped)
    ensures Kept(seen, res + [x]) == Kept(seen, res) + (if x.id in seen || x.id in Ids(res) then [] else [x])
    decreases |res|
  {
    if res == [] {
      assert [x][1..] == [];
    } else {
      var y, rest := res[0], res[1..];
      assert (res + [x])[0] == y && (res + [x])[1..] == rest + [x];
      assert Ids(res) == {y.id} + Ids(rest) by {
        assert forall z :: z in res <==> z == y || z in rest;
      }
      if y.id in seen {
        KeptSnoc(seen, rest, x);
      } else {
        KeptSnoc(seen + {y.id}, rest, x);
      }
    }
  }

  /** A batch whose ids have all been seen relays nothing. */
  lemma FreshAllSeen(seen: set<string>, res: seq<Scraped>)
    requires forall k :: 0 <= k < |res| ==> res[k].id in seen
    ensures Fresh(seen, res) == []
  {
    KeptIds(seen, res);
    IdsEmpty(Kept(seen, res));
  }

  /** A batch has no ids exactly when it is empty. */
  lemma IdsEmpty(xs: seq<Scraped>)
    ensures Ids(xs) == {} <==> xs == []
  {
    if xs != [] {
      assert xs[0].id in Ids(xs);
    }
  }

  /** The first-occurrence rule on what is relayed. */
  lemma FreshSnoc(seen: set<string>, res: seq<Scraped>, x: Scraped)
    ensures Fresh(seen, res + [x]) == Fresh(seen, res) + (if x.id in seen || x.id in Ids(res) then [] else [Strip(x)])
  {
    KeptSnoc(seen, res, x);
    if !(x.id in seen || x.id in Ids(res)) {
      StripsAppend(Kept(seen, res), [x]);
    } else {
      assert Kept(seen, res + [x]) == Kept(seen, res) + [];
    }
  }
}
