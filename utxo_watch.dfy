/** The prototype watcher loop: each tick lists the unspent outputs paying
    to the watched address and credits an output only when its transaction
    id has not been seen before. The node's answer for a tick is an input
    sequence; amounts are whole satoshis, summed exactly (the source sums
    `to_btc()` as `f64`). */
module UtxoWatch {

  /** A transaction id (a 32-byte hash); only its identity matters here. */
  type Txid = string

  /** One entry of `list_unspent`. */
  datatype Utxo = Utxo(txid: Txid, vout: nat, amount: nat, confirmations: int)

  /** The transaction ids occurring in a list of outputs. */
  function Txids(us: seq<Utxo>): (ids: set<Txid>)
    ensures forall i :: 0 <= i < |us| ==> us[i].txid in ids
    ensures forall t :: t in ids ==> exists i :: 0 <= i < |us| && us[i].txid == t
  {
    set i | 0 <= i < |us| :: us[i].txid
  }

  /** Total of the amounts of a list of outputs. */
  function Sum(us: seq<Utxo>): nat {
    if |us| == 0 then 0 else us[0].amount + Sum(us[1..])
  }

  /** The outputs credited when `us` is processed in order after the ids in
      `seen`: an output counts when its id is new, and its id is then seen. */
  function FirstSeen(seen: set<Txid>, us: seq<Utxo>): seq<Utxo>
    decreases |us|
  {
    if |us| == 0 then []
    else if us[0].txid in seen then FirstSeen(seen, us[1..])
    else [us[0]] + FirstSeen(seen + {us[0].txid}, us[1..])
  }

  /** The first output in `us` carrying id `t`. */
  function FirstWith(us: seq<Utxo>, t: Txid): (u: Utxo)
    requires t in Txids(us)
    ensures u in us && u.txid == t
    decreases |us|
  {
    if us[0].txid == t then us[0]
    else
      assert t in Txids(us[1..]) by {
        var i :| 0 <= i < |us| && us[i].txid == t;
        assert us[1..][i - 1] == us[i];
      }
      FirstWith(us[1..], t)
  }

  predicate DistinctTxids(us: seq<Utxo>) {
    forall k, l :: 0 <= k < l < |us| ==> us[k].txid != us[l].txid
  }

  lemma {:induction false} SumAppend(a: seq<Utxo>, b: seq<Utxo>)
    ensures Sum(a + b) == Sum(a) + Sum(b)
    decreases |a|
  {
    if |a| == 0 {
      assert a + b == b;
    } else {
      assert (a + b)[1..] == a[1..] + b;
      SumAppend(a[1..], b);
    }
  }

  lemma TxidsAppend(a: seq<Utxo>, b: seq<Utxo>)
    ensures Txids(a + b) == Txids(a) + Txids(b)
  {
    forall t | t in Txids(a + b) ensures t in Txids(a) + Txids(b) {
      var i :| 0 <= i < |a + b| && (a + b)[i].txid == t;
      if i >= |a| {
        assert b[i - |a|] == (a + b)[i];
      }
    }
    forall t | t in Txids(a) + Txids(b) ensures t in Txids(a + b) {
      if t in Txids(b) {
        var i :| 0 <= i < |b| && b[i].txid == t;
        assert (a + b)[|a| + i] == b[i];
      } else {
        var i :| 0 <= i < |a| && a[i].txid == t;
        assert (a + b)[i] == a[i];
      }
    }
  }

  /** Processing two lists one after the other credits what the first
      credits, then what the second credits after the first's ids. */
  lemma {:induction false} FirstSeenAppend(seen: set<Txid>, a: seq<Utxo>, b: seq<Utxo>)
    ensures FirstSeen(seen, a + b) == FirstSeen(seen, a) + FirstSeen(seen + Txids(a), b)
    decreases |a|
  {
    if |a| == 0 {
      assert a + b == b;
      assert Txids(a) == {};
      assert seen + Txids(a) == seen;
    } else {
      assert (a + b)[0] == a[0];
      assert (a + b)[1..] == a[1..] + b;
      assert a == [a[0]] + a[1..];
      TxidsAppend([a[0]], a[1..]);
      assert Txids([a[0]]) == {a[0].txid};
      if a[0].txid in seen {
        FirstSeenAppend(seen, a[1..], b);
        assert seen + Txids(a[1..]) == seen + Txids(a);
      } else {
        FirstSeenAppend(seen + {a[0].txid}, a[1..], b);
        assert seen + {a[0].txid} + Txids(a[1..]) == seen + Txids(a);
      }
    }
  }

  /** What one more output adds. */
  lemma FirstSeenSnoc(seen: set<Txid>, a: seq<Utxo>, u: Utxo)
    ensures FirstSeen(seen, a + [u]) == FirstSeen(seen, a) + (if u.txid in seen + Txids(a) then [] else [u])
  {
    FirstSeenAppend(seen, a, [u]);
    assert [u][1..] == [];
  }

  /** The credited ids are exactly the list's ids not seen before. */
  lemma {:induction false} FirstSeenTxids(seen: set<Txid>, us: seq<Utxo>)
    ensures Txids(FirstSeen(seen, us)) == Txids(us) - seen
    decreases |us|
  {
    if |us| > 0 {
      var u, rest := us[0], us[1..];
      assert us == [u] + rest;
      TxidsAppend([u], rest);
      assert Txids([u]) == {u.txid} by {
        assert [u][0].txid in Txids([u]);
      }
      if u.txid in seen {
        FirstSeenTxids(seen, rest);
      } else {
        FirstSeenTxids(seen + {u.txid}, rest);
        assert FirstSeen(seen, us) == [u] + FirstSeen(seen + {u.txid}, rest);
        TxidsAppend([u], FirstSeen(seen + {u.txid}, rest));
      }
    } else {
      assert Txids(us) == {};
    }
  }

  /** No id is credited twice. */
  lemma {:induction false} FirstSeenDistinct(seen: set<Txid>, us: seq<Utxo>)
    ensures DistinctTxids(FirstSeen(seen, us))
    decreases |us|
  {
    if |us| > 0 {
      var u, rest := us[0], us[1..];
      if u.txid in seen {
        FirstSeenDistinct(seen, rest);
      } else {
        var seen' := seen + {u.txid};
        FirstSeenDistinct(seen', rest);
        FirstSeenTxids(seen', rest);
        var tail := FirstSeen(seen', rest);
        assert FirstSeen(seen, us) == [u] + tail;
        forall l | 0 <= l < |tail| ensures tail[l].txid != u.txid {
          assert tail[l].txid in Txids(tail);
        }
      }
    }
  }

  /** Each credited output is the first listed output with its id. */
  lemma {:induction false} FirstSeenFirst(seen: set<Txid>, us: seq<Utxo>)
    ensures forall c :: c in FirstSeen(seen, us) ==> c.txid in Txids(us) && c == FirstWith(us, c.txid)
    decreases |us|
  {
    if |us| > 0 {
      var u, rest := us[0], us[1..];
      var seen' := if u.txid in seen then seen else seen + {u.txid};
      FirstSeenFirst(seen', rest);
      FirstSeenTxids(seen', rest);
      forall c | c in FirstSeen(seen, us) ensures c.txid in Txids(us) && c == FirstWith(us, c.txid) {
        if c != u || u.txid in seen {
          assert c in FirstSeen(seen', rest);
          assert c.txid in Txids(FirstSeen(seen', rest));
          var i :| 0 <= i < |rest| && rest[i].txid == c.txid;
          assert us[i + 1] == rest[i];
        }
      }
    }
  }

  /** Exactly once: the credited outputs carry pairwise distinct ids, none
      already seen, and every new id of the list is credited; each credited
      output is the first output in the list with its id. */
  lemma FirstSeenExactlyOnce(seen: set<Txid>, us: seq<Utxo>)
    ensures DistinctTxids(FirstSeen(seen, us))
    ensures Txids(FirstSeen(seen, us)) == Txids(us) - seen
    ensures forall c :: c in FirstSeen(seen, us) ==> c.txid in Txids(us) && c == FirstWith(us, c.txid)
  {
    FirstSeenTxids(seen, us);
    FirstSeenDistinct(seen, us);
    FirstSeenFirst(seen, us);
  }

  /** What one more output of a tick does to the seen set and the total. */
  lemma TickStep(seen: set<Txid>, a: seq<Utxo>, u: Utxo)
    ensures seen + Txids(a + [u]) == seen + Txids(a) + {u.txid}
    ensures Sum(FirstSeen(seen, a + [u]))
            == Sum(FirstSeen(seen, a)) + (if u.txid in seen + Txids(a) then 0 else u.amount)
  {
    FirstSeenSnoc(seen, a, u);
    TxidsAppend(a, [u]);
    assert Txids([u]) == {u.txid} by {
      assert [u][0].txid in Txids([u]);
    }
    SumAppend(FirstSeen(seen, a), if u.txid in seen + Txids(a) then [] else [u]);
  }

  /** One tick of `loop`: `utxos` is what `list_unspent` returned. */
  method Tick(receivedTransactions: set<Txid>, totalReceived: nat, utxos: seq<Utxo>)
    returns (seen: set<Txid>, total: nat)
    ensures seen == receivedTransactions + Txids(utxos)
    ensures total == totalReceived + Sum(FirstSeen(receivedTransactions, utxos))
  {
    seen, total := receivedTransactions, totalReceived;
    if |utxos| > 0 {
      var i := 0;
      while i < |utxos|
        invariant 0 <= i <= |utxos|
        invariant seen == receivedTransactions + Txids(utxos[..i])
        invariant total == totalReceived + Sum(FirstSeen(receivedTransactions, utxos[..i]))
      {
        var utxo := utxos[i];
        assert utxos[..i + 1] == utxos[..i] + [utxo];
        TickStep(receivedTransactions, utxos[..i], utxo);
        if utxo.txid !in seen {
          total := total + utxo.amount;
          seen := seen + {utxo.txid};
        }
        i := i + 1;
      }
      assert utxos[..i] == utxos;
    } else {
      assert Txids(utxos) == {};
    }
  }

  /** An output whose id is already seen changes neither the set nor the
      total, whatever its output index. */
  lemma SeenOutputIgnored(seen: set<Txid>, u: Utxo)
    requires u.txid in seen
    ensures seen + Txids([u]) == seen && Sum(FirstSeen(seen, [u])) == 0
  {
    assert [u][0].txid in Txids([u]);
    assert Txids([u]) == {u.txid};
  }

  /** Dedup is keyed on the id alone: a second output of a transaction,
      later in the list, adds nothing. */
  lemma LaterOutputOfSameTransaction(seen: set<Txid>, a: seq<Utxo>, u: Utxo)
    requires exists k :: 0 <= k < |a| && a[k].txid == u.txid
    ensures FirstSeen(seen, a + [u]) == FirstSeen(seen, a)
  {
    FirstSeenSnoc(seen, a, u);
  }

  /** The state after a sequence of ticks, from the given state. */
  function Run(seen: set<Txid>, total: nat, ticks: seq<seq<Utxo>>): (set<Txid>, nat)
    decreases |ticks|
  {
    if |ticks| == 0 then (seen, total)
    else
      var prev := Run(seen, total, ticks[..|ticks| - 1]);
      var last := ticks[|ticks| - 1];
      (prev.0 + Txids(last), prev.1 + Sum(FirstSeen(prev.0, last)))
  }

  function Flatten(ticks: seq<seq<Utxo>>): seq<Utxo>
    decreases |ticks|
  {
    if |ticks| == 0 then [] else Flatten(ticks[..|ticks| - 1]) + ticks[|ticks| - 1]
  }

  /** Across ticks the set only grows, the total never falls, and the run
      credits exactly what one pass over all the ticks' outputs credits. */
  lemma {:induction false} RunIsOnePass(seen: set<Txid>, total: nat, ticks: seq<seq<Utxo>>)
    ensures Run(seen, total, ticks).0 == seen + Txids(Flatten(ticks))
    ensures Run(seen, total, ticks).1 == total + Sum(FirstSeen(seen, Flatten(ticks)))
    ensures seen <= Run(seen, total, ticks).0 && total <= Run(seen, total, ticks).1
    decreases |ticks|
  {
    if |ticks| == 0 {
      assert Txids([]) == {};
    } else {
      var init, last := ticks[..|ticks| - 1], ticks[|ticks| - 1];
      RunIsOnePass(seen, total, init);
      TxidsAppend(Flatten(init), last);
      FirstSeenAppend(seen, Flatten(init), last);
      SumAppend(FirstSeen(seen, Flatten(init)), FirstSeen(seen + Txids(Flatten(init)), last));
    }
  }

  /** From the program's start (nothing seen, nothing received), every
      transaction id ever listed is credited exactly once, with the amount
      of its first listed output. */
  lemma RunFromStart(ticks: seq<seq<Utxo>>)
    ensures Run({}, 0, ticks).0 == Txids(Flatten(ticks))
    ensures Run({}, 0, ticks).1 == Sum(FirstSeen({}, Flatten(ticks)))
    ensures DistinctTxids(FirstSeen({}, Flatten(ticks)))
    ensures Txids(FirstSeen({}, Flatten(ticks))) == Run({}, 0, ticks).0
    ensures forall c :: c in FirstSeen({}, Flatten(ticks)) ==>
              c.txid in Txids(Flatten(ticks)) && c == FirstWith(Flatten(ticks), c.txid)
  {
    RunIsOnePass({}, 0, ticks);
    FirstSeenExactlyOnce({}, Flatten(ticks));
  }
}
