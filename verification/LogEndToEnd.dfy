/** From log entries to the lines of the log: what the JSON encoder makes, sent through the log
    writer by any number of goroutines. */
module LogEndToEnd {
  import opened Utf8
  import opened JsonString
  import opened JsonText
  import opened EncoderCalls
  import opened EncoderScope
  import opened EntryText
  import LogProxy
  import LogProxyProgress
  import Sequences

  /** What one call of EncodeEntry is given. */
  datatype Logged = Logged(cfg: Config, ent: Entry, calls: seq<Call>, spaced: bool)

  function Line(e: Logged): Bytes { EntryLine(e.cfg, e.ent, e.calls, e.spaced) }

  predicate EndsLine(cfg: Config) { cfg.lineEnding == [] || cfg.lineEnding == [NEWLINE] }

  lemma LineIsLine(e: Logged)
    requires EndsLine(e.cfg)
    ensures IsLine(Line(e))
  {
    var doc := EntryDoc(e.cfg, e.ent, e.calls, e.spaced);
    EntryOneLine(e.cfg, e.ent, e.calls, e.spaced);
    assert (doc + [NEWLINE])[..|doc|] == doc;
  }

  /** The line denotes what the entry meant if and only if its callbacks and its context are ones
      that the encoder is exact for. */
  predicate Exact(e: Logged, line: Bytes) {
    Parse(line) == Some(EntryValue(e.cfg, e.ent, e.calls)) <==>
      CallbacksOk(e.cfg, e.ent) && CallsOk(e.calls) && Tidy(e.calls) && Single(e.calls)
  }

  lemma LineExact(e: Logged)
    requires EndsLine(e.cfg)
    ensures Exact(e, Line(e))
  {
    LineParses(e.cfg, e.ent, e.calls, e.spaced);
    EntryExact(e.cfg, e.ent, e.calls, e.spaced);
  }

  lemma LinesExact(messages: seq<Bytes>, entries: seq<Logged>)
    requires |messages| == |entries|
    requires forall k | 0 <= k < |entries| :: EndsLine(entries[k].cfg) && messages[k] == Line(entries[k])
    ensures Some(Lines(Sequences.Concat(messages))) == Some(messages)
    ensures forall k | 0 <= k < |entries| :: Exact(entries[k], messages[k])
  {
    forall k | 0 <= k < |messages| ensures IsLine(messages[k]) { LineIsLine(entries[k]); }
    LogSplits(messages);
    forall k | 0 <= k < |entries| ensures Exact(entries[k], messages[k]) { LineExact(entries[k]); }
  }

  /** The bytes of the log once the queue has been written out. */
  function FinalLog(actions: seq<LogProxy.Action>): Bytes {
    Sequences.Concat(LogProxy.Run(LogProxy.Init(), LogProxyProgress.Completed(actions)).sink)
  }

  /** When every accepted message is an encoded entry, then in the end the log has one line for
      each, in the order of acceptance; and line k denotes what entry k meant if and only if that
      entry's callbacks and context are ones that the encoder is exact for. */
  lemma EntriesAreLines(actions: seq<LogProxy.Action>, entries: seq<Logged>)
    requires |entries| == |LogProxyProgress.Messages(actions)|
    requires forall k | 0 <= k < |entries| ::
               EndsLine(entries[k].cfg) && LogProxyProgress.Messages(actions)[k] == Line(entries[k])
    ensures var lines := Lines(FinalLog(actions));
            && |lines| == |entries|
            && forall k | 0 <= k < |entries| :: lines[k] == Line(entries[k]) && Exact(entries[k], lines[k])
  {
    var messages := LogProxyProgress.Messages(actions);
    assert Some(FinalLog(actions)) == Some(Sequences.Concat(messages)) by { LogProxyProgress.Drains(actions); }
    LinesExact(messages, entries);
  }
}
