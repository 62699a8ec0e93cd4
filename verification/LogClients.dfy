/** The clients of the compare-and-swap model over the log-structured store: their moves are its writes. */
module LogClients {
  import opened Common
  import opened Remote
  import opened WatchProtocol
  import opened CasClients

  lemma HistoryMore(log: seq<Write>, w: Write)
    ensures HistoryOf(log + [w]) == HistoryOf(log) + [SnapshotOf(log + [w])]
    ensures HistoryOf(log)[|log|] == SnapshotOf(log)
  {
    var a, b := HistoryOf(log + [w]), HistoryOf(log) + [SnapshotOf(log + [w])];
    forall i | 0 <= i < |a| ensures a[i] == b[i] {
      if i <= |log| {
        assert (log + [w])[..i] == log[..i];
      } else {
        assert (log + [w])[..i] == log + [w];
      }
    }
    assert log[..|log|] == log;
  }

  /** Any write of somebody else is a move. */
  lemma WriteIsAMove(m: Clients, log: seq<Write>, w: Write)
    requires Ok(m) && m.sys.hist == HistoryOf(log)
    ensures var v := Other(SnapshotOf(log + [w])); CanMove(m, v) && Moved(m, v).sys.hist == HistoryOf(log + [w])
  {
    HistoryMore(log, w);
    LogMeetsContract(log + [w]);
  }

  lemma HeldIndexIsPositive(m: Clients, c: nat)
    requires Ok(m) && c in m.held
    ensures m.held[c].item.modifyIndex >= 1
  {
    var h := m.sys.hist;
    var u: nat :| u < |h| && At(h[u].kv, m.held[c].key) == Some(m.held[c].item);
    assert WellFormed(h[u]);
  }

  /** What the client asks the store to write. */
  function WriteOf(h: Held, f: Bytes -> Bytes): Write {
    Write.Cas(h.key, f(h.item.value), h.item.modifyIndex)
  }

  lemma ContentIsReplay(m: Clients, log: seq<Write>)
    requires Typed(m.sys) && m.sys.hist == HistoryOf(log)
    ensures Content(m.sys) == Replay(log)
  {
    assert log[..|log|] == log;
  }

  /** A client's compare-and-swap is accepted if and only if the store's own write takes effect, that is, if and only
      if the entry of the index it holds is the one that counts for the key. */
  lemma AcceptedExactly(m: Clients, log: seq<Write>, c: nat, f: Bytes -> Bytes)
    requires Ok(m) && m.sys.hist == HistoryOf(log) && c in m.held
    ensures var h := m.held[c];
      && (Accepted(m, c) <==> TakesEffect(Replay(log), WriteOf(h, f)))
      && (Accepted(m, c) <==> h.item.modifyIndex >= 2 && Counts(log, h.item.modifyIndex - 2, h.key))
  {
    var h := m.held[c];
    HeldIndexIsPositive(m, c);
    ContentIsReplay(m, log);
    CasTakes(log, h.key, f(h.item.value), h.item.modifyIndex);
  }

  lemma ValuesAfter(log: seq<Write>, w: Write)
    requires w.Cas? && TakesEffect(Replay(log), w)
    ensures Values(Replay(log + [w])) == Values(Replay(log))[w.key := w.value]
  {
    assert (log + [w])[..|log|] == log;
  }

  /** And it is then the move of the client. */
  lemma CasIsAMove(m: Clients, log: seq<Write>, c: nat, f: Bytes -> Bytes)
    requires Ok(m) && m.sys.hist == HistoryOf(log) && c in m.held && Accepted(m, c)
    ensures var w := WriteOf(m.held[c], f);
      var v := Move.Cas(c, f, SnapshotOf(log + [w]));
      CanMove(m, v) && Moved(m, v).sys.hist == HistoryOf(log + [w])
  {
    var w := WriteOf(m.held[c], f);
    AcceptedExactly(m, log, c, f);
    ContentIsReplay(m, log);
    HistoryMore(log, w);
    LogMeetsContract(log + [w]);
    ValuesAfter(log, w);
  }
}
