/** Encoders and buffers that are recycled. Encoders in use share nothing, so each one's output
    depends on its own calls only, whatever is cloned, encoded and given back in between. */
module EncoderPool {
  import Sequences
  import opened Utf8
  import opened JsonString
  import opened JsonText
  import opened EncoderOps
  import opened EncoderCalls
  import opened EncoderScope
  import opened EntryText
  import opened JsonEncoder

  class Pools {
    var encoders: set<JsonEncoder>
    var buffers: set<Buffer>
    /** The encoders in use, and the buffers that callers hold. */
    ghost var live: set<JsonEncoder>
    ghost var handed: set<Buffer>

    constructor ()
      ensures Valid() && live == {} && handed == {} && encoders == {} && buffers == {}
    {
      encoders, buffers, live, handed := {}, {}, {}, {};
    }

    ghost predicate Blank(e: JsonEncoder)
      reads e
    {
      e.config == None && e.buf == null && !e.spaced && e.openNamespaces == 0
    }

    /** A pooled encoder reaches no buffer; the buffers of encoders in use, pooled buffers and
        buffers in the hands of callers are all different. */
    ghost predicate Apart()
      reads this, encoders, live
    {
      && encoders !! live && buffers !! handed
      && (forall e <- encoders :: Blank(e))
      && (forall e <- live :: e.config.Some? && e.buf != null && e.buf !in buffers && e.buf !in handed)
      && (forall e, f | e in live && f in live && e != f :: e.buf != f.buf)
    }

    /** Besides, the buffer of each encoder in use is what its own calls make of it. */
    ghost predicate Valid()
      reads this, encoders, live, set e | e in live :: e.buf
    {
      Apart() && forall e <- live :: e.Valid()
    }

    /** The encoder and its buffer are as they were. */
    twostate predicate Same(e: JsonEncoder)
      reads e, e.buf
    {
      && e.config == old(e.config) && e.buf == old(e.buf) && e.spaced == old(e.spaced)
      && e.openNamespaces == old(e.openNamespaces) && e.calls == old(e.calls)
      && (e.buf != null ==> e.buf.data == old(e.buf.data))
    }

    // ---- the pools ---------------------------------------------------------------------------

    method GetEncoder() returns (e: JsonEncoder)
      requires forall e <- encoders :: Blank(e)
      modifies this`encoders
      ensures e in old(encoders) || fresh(e)
      ensures encoders == old(encoders) - {e} && Blank(e)
    {
      if * {
        e := new JsonEncoder();
      } else if encoders == {} {
        e := new JsonEncoder();
      } else {
        e :| e in encoders;
        encoders := encoders - {e};
      }
    }

    method GetBuffer() returns (b: Buffer)
      modifies this`buffers, buffers
      ensures b in old(buffers) || fresh(b)
      ensures buffers == old(buffers) - {b} && b.data == []
    {
      if * {
        b := new Buffer();
      } else if buffers == {} {
        b := new Buffer();
      } else {
        b :| b in buffers;
        buffers := buffers - {b};
        b.data := [];
      }
    }

    /** putJSONEncoder */
    method PutEncoder(e: JsonEncoder)
      modifies this`encoders, e
      ensures encoders == old(encoders) + {e} && Blank(e)
    {
      e.config, e.buf, e.spaced, e.openNamespaces := None, null, false, 0;
      encoders := encoders + {e};
    }

    /** A caller gives a buffer back. */
    method FreeBuffer(b: Buffer)
      requires Valid() && b in handed
      modifies this`buffers, this`handed
      ensures Valid() && handed == old(handed) - {b} && buffers == old(buffers) + {b}
    {
      handed := handed - {b};
      buffers := buffers + {b};
    }

    /** clone: everything but the contents of the buffer. The encoder is in neither pool. */
    method CloneBlank(enc: JsonEncoder) returns (e: JsonEncoder)
      requires Apart() && enc in live
      modifies this`encoders, this`buffers, encoders, buffers
      ensures Apart() && forall f <- live :: Same(f)
      ensures e in old(encoders) || fresh(e)
      ensures e !in encoders && e !in live && encoders <= old(encoders) && buffers <= old(buffers)
      ensures e.buf != null && (e.buf in old(buffers) || fresh(e.buf)) && e.buf !in buffers && e.buf !in handed
      ensures forall f <- live :: f.buf != e.buf
      ensures e.config == enc.config && e.spaced == enc.spaced && e.openNamespaces == enc.openNamespaces
      ensures e.buf.data == []
    {
      e := GetEncoder();
      e.config, e.spaced, e.openNamespaces := enc.config, enc.spaced, enc.openNamespaces;
      e.buf := GetBuffer();
    }

    // ---- encoders ------------------------------------------------------------------------------

    twostate lemma SameValid(e: JsonEncoder)
      requires old(e.Valid()) && Same(e)
      ensures e.Valid()
    {
    }

    /** An encoder with a buffer of its own comes into use. */
    method Enlist(e: JsonEncoder)
      requires Apart() && e !in live && e !in encoders && e.config.Some?
      requires e.buf != null && e.buf !in buffers && e.buf !in handed && forall f <- live :: f.buf != e.buf
      modifies this`live
      ensures Apart() && live == old(live) + {e}
    {
      live := live + {e};
    }

    /** What happens to the aliasing when an encoder is made; NewEncoder adds its history. */
    method Create(config: Config, spaced: bool) returns (e: JsonEncoder)
      requires Apart()
      modifies this`live, this`buffers, buffers
      ensures Apart() && fresh(e) && live == old(live) + {e} && handed == old(handed)
      ensures e.config == Some(config) && e.spaced == spaced && e.calls == []
      ensures e.openNamespaces == 0 && e.buf.data == []
      ensures forall f <- old(live) :: Same(f)
    {
      e := new JsonEncoder();
      var b := GetBuffer();
      e.config, e.buf, e.spaced := Some(config), b, spaced;
      Enlist(e);
    }

    method NewEncoder(config: Config, spaced: bool) returns (e: JsonEncoder)
      requires Valid()
      modifies this`live, this`buffers, buffers
      ensures Valid() && fresh(e) && live == old(live) + {e} && handed == old(handed)
      ensures e.config == Some(config) && e.spaced == spaced && e.calls == []
      ensures forall f <- old(live) :: Same(f)
    {
      e := Create(config, spaced);
      forall f <- live ensures f.Valid() { if f != e { SameValid(f); } }
    }

    /** The aliasing part of Clone. */
    method Duplicate(enc: JsonEncoder) returns (e: JsonEncoder)
      requires Apart() && enc in live
      modifies this`encoders, this`buffers, this`live, encoders, buffers
      ensures Apart() && e !in old(live) && live == old(live) + {e} && handed == old(handed)
      ensures e.config == enc.config && e.spaced == enc.spaced && e.calls == enc.calls
      ensures e.openNamespaces == enc.openNamespaces && e.buf.data == enc.buf.data
      ensures forall f <- old(live) :: Same(f)
    {
      e := CloneBlank(enc);
      e.buf.Append(enc.buf.data);
      e.calls := enc.calls;
      Enlist(e);
    }

    /** Clone: an encoder with the same history and a buffer of its own. */
    method Clone(enc: JsonEncoder) returns (e: JsonEncoder)
      requires Valid() && enc in live
      modifies this`encoders, this`buffers, this`live, encoders, buffers
      ensures Valid() && e !in old(live) && live == old(live) + {e} && handed == old(handed)
      ensures e.config == enc.config && e.spaced == enc.spaced && e.calls == enc.calls
      ensures forall f <- old(live) :: Same(f)
    {
      e := Duplicate(enc);
      SameValid(enc);
      forall f <- live ensures f.Valid() { if f != e { SameValid(f); } }
    }

    /** A field is added to one encoder: the others keep their histories. */
    method AddField(enc: JsonEncoder, c: Call)
      requires Valid() && enc in live
      modifies enc, enc.buf
      ensures Valid() && enc.calls == old(enc.calls) + [c]
      ensures enc.config == old(enc.config) && enc.spaced == old(enc.spaced)
      ensures forall f <- live :: f != enc ==> Same(f)
    {
      enc.AddField(c);
    }

    /** The aliasing part of EncodeEntry. */
    method Render(enc: JsonEncoder, ent: Entry, fields: seq<Call>) returns (ret: Buffer)
      requires Apart() && enc in live
      modifies this`encoders, this`buffers, this`handed, encoders, buffers
      ensures Apart() && live == old(live)
      ensures forall f <- live :: Same(f)
      ensures ret !in old(handed) && handed == old(handed) + {ret}
      ensures EncodedLine(enc.config.value, ent, enc.buf.data, enc.openNamespaces, fields, enc.spaced) == Some(ret.data)
    {
      var final := CloneBlank(enc);
      WriteEntry(final, enc.config.value, ent, enc.buf.data, fields);
      ret := HandOut(final);
    }

    /** The caller gets the buffer, and the encoder goes back to the pool without it. */
    method HandOut(final: JsonEncoder) returns (ret: Buffer)
      requires Apart() && final !in live && final.buf != null && final.buf !in handed && final.buf !in buffers
      requires forall f <- live :: f.buf != final.buf
      modifies this`encoders, this`handed, final
      ensures Apart() && ret == old(final.buf) && handed == old(handed) + {ret}
    {
      ret := final.buf;
      PutEncoder(final);
      handed := handed + {ret};
    }

    /** The entry is a function of the configuration, the calls made on this encoder, and the
        arguments; the encoder and all others in use stay as they are. */
    method EncodeEntry(enc: JsonEncoder, ent: Entry, fields: seq<Call>) returns (ret: Buffer)
      requires Valid() && enc in live
      modifies this`encoders, this`buffers, this`handed, encoders, buffers
      ensures Valid() && live == old(live)
      ensures forall f <- live :: Same(f)
      ensures ret !in old(handed) && handed == old(handed) + {ret}
      ensures var cfg := enc.config.value;
              ret.data == EntryDoc(cfg, ent, enc.calls + fields, enc.spaced)
                          + if cfg.lineEnding != [] then cfg.lineEnding else [NEWLINE]
    {
      ReplayedLine(enc, ent, fields);
      ret := Render(enc, ent, fields);
      forall f <- live ensures f.Valid() { SameValid(f); }
    }

    /** The aliasing part of WriteContext. */
    method RenderContext(enc: JsonEncoder, line: Buffer, extra: seq<Call>)
      requires Apart() && enc in live && line in handed
      modifies this`encoders, this`buffers, encoders, buffers, line
      ensures Apart() && live == old(live) && handed == old(handed)
      ensures forall f <- live :: Same(f)
      ensures WithContext(old(line.data), enc.buf.data, enc.openNamespaces, extra, enc.spaced) == Some(line.data)
    {
      var context := CloneBlank(enc);
      FillContext(context, line, enc.buf.data, extra);
      Discard(context.buf);
    }

    /** A context's buffer is freed; the encoder around it is left to the garbage collector. */
    method Discard(b: Buffer)
      requires Apart() && b !in handed && forall f <- live :: f.buf != b
      modifies this`buffers
      ensures Apart() && buffers == old(buffers) + {b}
    {
      buffers := buffers + {b};
    }

    /** writeContext of the console encoder. If no call wrote anything, the line stays as it is.
        Otherwise the object of accumulated and extra fields comes behind it, after one space if
        the line was not empty. */
    method WriteContext(enc: JsonEncoder, line: Buffer, extra: seq<Call>)
      requires Valid() && enc in live && line in handed
      modifies this`encoders, this`buffers, encoders, buffers, line
      ensures Valid() && live == old(live) && handed == old(handed)
      ensures forall f <- live :: Same(f)
      ensures Silent(enc.calls + extra) ==> line.data == old(line.data)
      ensures !Silent(enc.calls + extra) ==>
                line.data == old(line.data) + (if old(line.data) == [] then [] else [SPACE])
                             + Exec([], Braced(enc.calls + extra, []), enc.spaced)
      ensures var cs := enc.calls + extra;
              Parse(Exec([], Braced(cs, []), enc.spaced)) == Some(JObject(Fields(cs)))
              <==> CallsOk(cs) && Tidy(cs) && Single(cs)
    {
      ReplayedContext(enc, line.data, extra);
      RenderContext(enc, line, extra);
      forall f <- live ensures f.Valid() { SameValid(f); }
    }
  }

  function TabFor(line: Bytes): Bytes { if line == [] then [] else [SPACE] }

  /** What a context adds behind a line. */
  function ContextTail(line: Bytes, context: Option<Bytes>): Bytes {
    if context.None? then [] else TabFor(line) + context.value
  }

  /** A line with its context, computed from the encoder's buffer and counter. */
  function WithContext(line: Bytes, fragment: Bytes, spaces: nat, extra: seq<Call>, spaced: bool): Option<Bytes> {
    Some(line + ContextTail(line, ContextFrom(fragment, spaces, extra, spaced)))
  }

  /** An entry's line, computed from the encoder's buffer and counter. */
  function EncodedLine(cfg: Config, ent: Entry, fragment: Bytes, spaces: nat, fields: seq<Call>, spaced: bool)
    : Option<Bytes>
  {
    Some(EncodeFrom(MetaCalls(cfg, ent), fragment, spaces, fields, StackCalls(cfg, ent), spaced) + LineEnd(cfg))
  }

  lemma ReplayedLine(enc: JsonEncoder, ent: Entry, fields: seq<Call>)
    requires enc.Valid()
    ensures EncodedLine(enc.config.value, ent, enc.buf.data, enc.openNamespaces, fields, enc.spaced)
         == Some(EntryLine(enc.config.value, ent, enc.calls + fields, enc.spaced))
  {
    SpliceReplay(enc.config.value, ent, enc.calls, fields, enc.spaced);
  }

  lemma ReplayedContext(enc: JsonEncoder, line: Bytes, extra: seq<Call>)
    requires enc.Valid()
    ensures var cs := enc.calls + extra;
            var text := Exec([], Braced(cs, []), enc.spaced);
            && WithContext(line, enc.buf.data, enc.openNamespaces, extra, enc.spaced)
               == Some(if Silent(cs) then line else line + (if line == [] then [] else [SPACE]) + text)
            && (Parse(text) == Some(JObject(Fields(cs))) <==> CallsOk(cs) && Tidy(cs) && Single(cs))
  {
    var cs := enc.calls + extra;
    ContextReplay(enc.calls, extra, enc.spaced);
    assert line + [] == line;
    Sequences.Assoc(line, TabFor(line), Exec([], Braced(cs, []), enc.spaced));
    BracedExact(cs, [], enc.spaced);
    assert Fields(cs) + Fields([]) == Fields(cs);
  }

  method AddTabIfNecessary(line: Buffer)
    modifies line
    ensures line.data == old(line.data) + TabFor(old(line.data))
  {
    if |line.data| > 0 { line.Append([SPACE]); }
  }

  /** The writing part of WriteContext, on an encoder cloned for the purpose. */
  method FillContext(context: JsonEncoder, line: Buffer, fragment: Bytes, extra: seq<Call>)
    requires context.buf != null && context.buf.data == [] && line != context.buf
    modifies context.buf, context`openNamespaces, line
    ensures WithContext(old(line.data), fragment, old(context.openNamespaces), extra, context.spaced) == Some(line.data)
  {
    FillBody(context, fragment, extra);
    AppendContext(line, context.buf.data);
  }

  /** The context without its braces. */
  method FillBody(context: JsonEncoder, fragment: Bytes, extra: seq<Call>)
    requires context.buf != null && context.buf.data == []
    modifies context.buf, context`openNamespaces
    ensures ContextFrom(fragment, old(context.openNamespaces), extra, context.spaced)
         == if context.buf.data == [] then None else Some([0x7B] + context.buf.data + [0x7D])
  {
    ghost var spaces := context.openNamespaces;
    context.buf.Append(fragment);
    assert context.buf.data == fragment;
    context.AddFields(extra);
    ghost var wrote := context.buf.data;
    context.CloseOpenNamespaces();
    ContextSteps(fragment, spaces, extra, wrote, context.buf.data, context.spaced);
  }

  lemma ContextSteps(fragment: Bytes, spaces: nat, extra: seq<Call>, wrote: Bytes, closed: Bytes, spaced: bool)
    requires Some(WithCalls(fragment, extra, spaced)) == Some(wrote)
    requires Some(WithClosers(wrote, spaces + Spaces(extra), spaced)) == Some(closed)
    ensures ContextFrom(fragment, spaces, extra, spaced)
         == if closed == [] then None else Some([0x7B] + closed + [0x7D])
  {
  }

  /** The context goes behind the line in braces, if there is one. */
  method AppendContext(line: Buffer, context: Bytes)
    modifies line
    ensures var braced := if context == [] then None else Some([0x7B] + context + [0x7D]);
            Some(line.data) == Some(old(line.data) + ContextTail(old(line.data), braced))
  {
    ghost var before := line.data;
    if |context| > 0 {
      AddTabIfNecessary(line);
      line.Append([0x7B]);
      line.Append(context);
      line.Append([0x7D]);
    }
    ContextAppended(before, context);
  }

  lemma ContextAppended(line: Bytes, context: Bytes)
    ensures Some(line + TabFor(line) + [0x7B] + context + [0x7D])
         == Some(line + (TabFor(line) + ([0x7B] + context + [0x7D])))
    ensures Some(line + []) == Some(line)
  {
    assert line + TabFor(line) + [0x7B] + context + [0x7D] == line + (TabFor(line) + ([0x7B] + context + [0x7D]));
    assert line + [] == line;
  }

  /** The writing part of EncodeEntry, on an encoder cloned for the purpose. */
  method WriteEntry(final: JsonEncoder, cfg: Config, ent: Entry, fragment: Bytes, fields: seq<Call>)
    requires final.buf != null && final.buf.data == []
    modifies final.buf, final`openNamespaces
    ensures EncodedLine(cfg, ent, fragment, old(final.openNamespaces), fields, final.spaced) == Some(final.buf.data)
  {
    ghost var spaces := final.openNamespaces;
    final.buf.Append([0x7B]);
    assert final.buf.data == [0x7B];
    WriteMeta(final, cfg, ent);
    ghost var head := final.buf.data;
    WriteBody(final, fragment, fields);
    ghost var closed := final.buf.data;
    if ent.stack != [] && cfg.stacktraceKey != [] {
      final.AddText(cfg.stacktraceKey, ent.stack);
    }
    EncodeSteps(MetaCalls(cfg, ent), head, fragment, spaces, fields, closed,
                StackCalls(cfg, ent), final.buf.data, final.spaced);
    final.buf.Append([0x7D]);
    if cfg.lineEnding != [] {
      final.buf.Append(cfg.lineEnding);
    } else {
      final.buf.Append([NEWLINE]);
    }
  }

  lemma EncodeSteps(meta: seq<Call>, head: Bytes, fragment: Bytes, spaces: nat, fields: seq<Call>,
                    closed: Bytes, tail: seq<Call>, end: Bytes, spaced: bool)
    requires Wrote([0x7B], meta, spaced) == Some(head)
    requires Some(Body(head, fragment, spaces, fields, spaced)) == Some(closed)
    requires Wrote(closed, tail, spaced) == Some(end)
    ensures EncodeFrom(meta, fragment, spaces, fields, tail, spaced) == end + [0x7D]
  {
  }

  /** The accumulated context, the fields, and the closing braces. */
  method WriteBody(final: JsonEncoder, fragment: Bytes, fields: seq<Call>)
    requires final.buf != null
    modifies final.buf, final`openNamespaces
    ensures Some(Body(old(final.buf.data), fragment, old(final.openNamespaces), fields, final.spaced))
            == Some(final.buf.data)
  {
    ghost var (head, spaces) := (final.buf.data, final.openNamespaces);
    WriteFragment(final, fragment);
    ghost var context := final.buf.data;
    final.AddFields(fields);
    ghost var wrote := final.buf.data;
    final.CloseOpenNamespaces();
    BodySteps(head, fragment, context, spaces, fields, wrote, final.buf.data, final.spaced);
  }

  /** What was accumulated goes behind a separator, if there is anything. */
  method WriteFragment(final: JsonEncoder, fragment: Bytes)
    requires final.buf != null
    modifies final.buf
    ensures Some(final.buf.data) == Some(WithFragment(old(final.buf.data), fragment, final.spaced))
  {
    if |fragment| > 0 {
      final.AddElementSeparator();
      final.buf.Append(fragment);
    }
  }

  lemma BodySteps(head: Bytes, fragment: Bytes, context: Bytes, spaces: nat, fields: seq<Call>,
                  wrote: Bytes, closed: Bytes, spaced: bool)
    requires Some(context) == Some(WithFragment(head, fragment, spaced))
    requires Some(WithCalls(context, fields, spaced)) == Some(wrote)
    requires Some(WithClosers(wrote, spaces + Spaces(fields), spaced)) == Some(closed)
    ensures Some(Body(head, fragment, spaces, fields, spaced)) == Some(closed)
  {
  }

  /** Level, time, name, caller and message, each with its fallback. */
  method WriteMeta(final: JsonEncoder, cfg: Config, ent: Entry)
    requires final.buf != null
    modifies final.buf
    ensures Wrote(old(final.buf.data), MetaCalls(cfg, ent), final.spaced) == Some(final.buf.data)
  {
    ghost var b := final.buf.data;
    WriteLevelAndTime(final, cfg, ent);
    ghost var b2 := final.buf.data;
    WriteNameAndCaller(final, cfg, ent);
    ghost var b4 := final.buf.data;
    if cfg.messageKey != [] {
      final.AddText(cfg.messageKey, ent.message);
    }
    MetaParts(b, b2, b4, cfg, ent, final.spaced);
  }

  method WriteLevelAndTime(final: JsonEncoder, cfg: Config, ent: Entry)
    requires final.buf != null
    modifies final.buf
    ensures Wrote(old(final.buf.data), LevelAndTime(cfg, ent), final.spaced) == Some(final.buf.data)
  {
    ghost var b := final.buf.data;
    if cfg.levelKey != [] {
      final.AddStamp(cfg.levelKey, cfg.encodeLevel(ent.level), PText(ent.levelText));
    }
    ghost var b1 := final.buf.data;
    if cfg.timeKey != [] {
      final.AddStamp(cfg.timeKey, cfg.encodeTime(ent.time), PRaw(ent.nanos));
    }
    WroteMore(b, When(cfg.levelKey != [], LevelCall(cfg, ent)), b1, When(cfg.timeKey != [], TimeCall(cfg, ent)),
              final.spaced);
  }

  method WriteNameAndCaller(final: JsonEncoder, cfg: Config, ent: Entry)
    requires final.buf != null
    modifies final.buf
    ensures Wrote(old(final.buf.data), NameAndCaller(cfg, ent), final.spaced) == Some(final.buf.data)
  {
    ghost var b := final.buf.data;
    if ent.loggerName != [] && cfg.nameKey != [] {
      var prims := if cfg.encodeName.Some? then cfg.encodeName.value(ent.loggerName) else [PText(ent.loggerName)];
      final.AddStamp(cfg.nameKey, prims, PText(ent.loggerName));
    }
    ghost var b1 := final.buf.data;
    if ent.caller.Some? && cfg.callerKey != [] {
      var caller := ent.caller.value;
      final.AddStamp(cfg.callerKey, cfg.encodeCaller(caller), PText(caller.fullPath));
    }
    WroteMore(b, When(HasName(cfg, ent), NameCall(cfg, ent)), b1, CallerCalls(cfg, ent), final.spaced);
  }

  lemma MetaParts(b: Bytes, b2: Bytes, b4: Bytes, cfg: Config, ent: Entry, spaced: bool)
    requires Wrote(b, LevelAndTime(cfg, ent), spaced) == Some(b2)
    requires Wrote(b2, NameAndCaller(cfg, ent), spaced) == Some(b4)
    ensures Wrote(b, MetaCalls(cfg, ent), spaced) == Wrote(b4, MessageCalls(cfg, ent), spaced)
  {
    WroteMore(b, LevelAndTime(cfg, ent), b2, NameAndCaller(cfg, ent), spaced);
    WroteMore(b, LevelAndTime(cfg, ent) + NameAndCaller(cfg, ent), b4, MessageCalls(cfg, ent), spaced);
  }
}
