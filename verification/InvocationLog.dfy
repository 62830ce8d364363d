/** The log file of an agent: invocations one after the other, each with a one-line header that may be rewritten in place. */
module InvocationLog {
  import opened Outcomes
  import opened Text

  newtype byte = x: int | 0 <= x < 256

  const Newline: byte := 10

  type Bytes = seq<byte>

  datatype Header = Header(role: string, runKind: string, sessionId: Option<string>, prompt: string)

  /** Encoded headers are single lines. */
  ghost predicate OneLineEncoder(encode: Header -> Bytes)
  {
    forall h :: Newline !in encode(h)
  }

  /** An invocation as it stands in the file: what sets it off, its header, and the provider's output. */
  datatype Entry = Entry(separator: Bytes, header: Header, output: Bytes)

  function EntryBytes(encode: Header -> Bytes, e: Entry): Bytes
  {
    e.separator + encode(e.header) + [Newline] + e.output
  }

  function Flat(encode: Header -> Bytes, entries: seq<Entry>): Bytes
  {
    if entries == [] then []
    else Flat(encode, entries[..|entries| - 1]) + EntryBytes(encode, entries[|entries| - 1])
  }

  /** What is written before the next invocation, so that a blank line comes before its header. */
  function SeparatorAfter(bytes: Bytes): Bytes
  {
    if bytes == [] then []
    else if bytes[|bytes| - 1] != Newline then [Newline, Newline]
    else [Newline]
  }

  function FindNewline(bytes: Bytes): (r: int)
    ensures -1 <= r < |bytes|
    ensures r >= 0 ==> bytes[r] == Newline
    ensures forall i :: 0 <= i < (if r >= 0 then r else |bytes|) ==> bytes[i] != Newline
  {
    if bytes == [] then -1
    else if bytes[0] == Newline then 0
    else
      var r := FindNewline(bytes[1..]);
      if r < 0 then -1 else r + 1
  }

  /** The lines of a file; the last one need not be ended by a newline. */
  function FileLines(bytes: Bytes): seq<Bytes>
    decreases |bytes|
  {
    if bytes == [] then []
    else
      var at := FindNewline(bytes);
      if at < 0 then [bytes] else [bytes[..at]] + FileLines(bytes[at + 1..])
  }

  lemma FirstLine(line: Bytes, rest: Bytes)
    requires Newline !in line
    ensures FileLines(line + [Newline] + rest) == [line] + FileLines(rest)
  {
    var f := line + [Newline] + rest;
    FoundAt(f, |line|);
    assert f[..|line|] == line && f[|line| + 1..] == rest;
  }

  lemma FoundAt(bytes: Bytes, at: nat)
    requires at < |bytes| && bytes[at] == Newline && forall i :: 0 <= i < at ==> bytes[i] != Newline
    ensures FindNewline(bytes) == at
  {
    var r := FindNewline(bytes);
    if 0 <= r < at {
      assert false;
    }
  }

  lemma OneLine(line: Bytes)
    requires Newline !in line
    ensures FileLines(line + [Newline]) == [line]
  {
    FirstLine(line, []);
    assert line + [Newline] + [] == line + [Newline];
  }

  lemma {:induction false} LinesAppend(a: Bytes, b: Bytes)
    requires a != [] && a[|a| - 1] == Newline
    ensures FileLines(a + b) == FileLines(a) + FileLines(b)
    decreases |a|
  {
    var at := FindNewline(a);
    var line, rest := a[..at], a[at + 1..];
    assert a == line + [Newline] + rest;
    assert a + b == line + [Newline] + (rest + b);
    FirstLine(line, rest);
    FirstLine(line, rest + b);
    if rest == [] {
      assert rest + b == b;
    } else {
      LinesAppend(rest, b);
      Assoc([line], FileLines(rest), FileLines(b));
    }
  }

  lemma {:induction false} OpenLineEnds(a: Bytes)
    requires a != [] && a[|a| - 1] != Newline
    ensures FileLines(a + [Newline]) == FileLines(a)
    decreases |a|
  {
    var at := FindNewline(a);
    if at < 0 {
      assert Newline !in a;
      OneLine(a);
    } else {
      var line, rest := a[..at], a[at + 1..];
      assert a == line + [Newline] + rest && a + [Newline] == line + [Newline] + (rest + [Newline]);
      FirstLine(line, rest + [Newline]);
      OpenLineEnds(rest);
    }
  }

  /** What the lines of a file become. */
  predicate AddsBlankAndLine(file: Bytes, more: Bytes, line: Bytes)
  {
    FileLines(more) == FileLines(file) + (if file == [] then [line] else [[], line])
  }

  /** A new header adds one blank line and itself to the lines of a file, and only itself to an empty file. */
  lemma OneBlankLineIsAdded(file: Bytes, line: Bytes)
    requires Newline !in line
    ensures AddsBlankAndLine(file, WithLine(file, SeparatorAfter(file), line), line)
  {
    if file == [] {
      LineOfEmpty(line);
    } else if file[|file| - 1] == Newline {
      LineAfterEnded(file, line);
    } else {
      LineAfterOpen(file, line);
    }
  }

  lemma LineOfEmpty(line: Bytes)
    requires Newline !in line
    ensures AddsBlankAndLine([], WithLine([], [], line), line)
  {
    OneLine(line);
    assert WithLine([], [], line) == line + [Newline];
  }

  lemma LineAfterEnded(file: Bytes, line: Bytes)
    requires Newline !in line && file != [] && file[|file| - 1] == Newline
    ensures AddsBlankAndLine(file, WithLine(file, [Newline], line), line)
  {
    LineAfterBlank(file, line);
    OneNewline(file, line);
  }

  lemma LineAfterOpen(file: Bytes, line: Bytes)
    requires Newline !in line && file != [] && file[|file| - 1] != Newline
    ensures AddsBlankAndLine(file, WithLine(file, [Newline, Newline], line), line)
  {
    OpenLineEnds(file);
    LineAfterBlank(file + [Newline], line);
    TwoNewlines(file, line);
  }

  lemma OneNewline(file: Bytes, line: Bytes)
    ensures WithLine(file, [Newline], line) == file + ([Newline] + (line + [Newline]))
  {
  }

  lemma TwoNewlines(file: Bytes, line: Bytes)
    ensures WithLine(file, [Newline, Newline], line) == file + [Newline] + ([Newline] + (line + [Newline]))
  {
    assert file + [Newline, Newline] == file + [Newline] + [Newline];
    OneNewline(file + [Newline], line);
  }

  lemma LineAfterBlank(file: Bytes, line: Bytes)
    requires Newline !in line && file != [] && file[|file| - 1] == Newline
    ensures FileLines(file + ([Newline] + (line + [Newline]))) == FileLines(file) + [[], line]
  {
    LinesAppend(file, [Newline] + (line + [Newline]));
    FirstLine([], line + [Newline]);
    assert [] + [Newline] + (line + [Newline]) == [Newline] + (line + [Newline]);
    OneLine(line);
    assert [[]] + [line] == [[], line];
  }

  predicate SeparatorsFit(encode: Header -> Bytes, entries: seq<Entry>)
  {
    forall k :: 0 <= k < |entries| ==> entries[k].separator == SeparatorAfter(Flat(encode, entries[..k]))
  }

  // ---------- the file as a list of invocations ----------

  lemma FlatSnoc(encode: Header -> Bytes, entries: seq<Entry>, e: Entry)
    ensures Flat(encode, entries + [e]) == Flat(encode, entries) + EntryBytes(encode, e)
  {
    assert (entries + [e])[..|entries|] == entries;
  }

  lemma {:induction false} FlatAppend(encode: Header -> Bytes, a: seq<Entry>, b: seq<Entry>)
    ensures Flat(encode, a + b) == Flat(encode, a) + Flat(encode, b)
    decreases |b|
  {
    if b == [] {
      assert a + b == a;
    } else {
      var b', last := b[..|b| - 1], b[|b| - 1];
      assert b == b' + [last];
      Assoc(a, b', [last]);
      FlatAppend(encode, a, b');
      FlatSnoc(encode, a + b', last);
      Assoc(Flat(encode, a), Flat(encode, b'), EntryBytes(encode, last));
    }
  }

  /** Where the header of the k-th invocation begins. */
  function HeaderStart(encode: Header -> Bytes, entries: seq<Entry>, k: nat): nat
    requires k < |entries|
  {
    |Flat(encode, entries[..k])| + |entries[k].separator|
  }

  /** The file around the k-th header. */
  function Before(encode: Header -> Bytes, entries: seq<Entry>, k: nat): Bytes
    requires k < |entries|
  {
    Flat(encode, entries[..k]) + entries[k].separator
  }

  function After(encode: Header -> Bytes, entries: seq<Entry>, k: nat): Bytes
    requires k < |entries|
  {
    entries[k].output + Flat(encode, entries[k + 1..])
  }

  lemma FlatAround(encode: Header -> Bytes, entries: seq<Entry>, k: nat)
    requires k < |entries|
    ensures Flat(encode, entries) == Before(encode, entries, k) + (encode(entries[k].header) + ([Newline] + After(encode, entries, k)))
  {
    var e := entries[k];
    FlatParts(encode, entries, k);
    Regroup(Flat(encode, entries[..k]), e.separator, encode(e.header), e.output, Flat(encode, entries[k + 1..]));
  }

  lemma Split(entries: seq<Entry>, k: nat)
    requires k < |entries|
    ensures entries == entries[..k] + [entries[k]] + entries[k + 1..]
  {
  }

  lemma FlatParts(encode: Header -> Bytes, entries: seq<Entry>, k: nat)
    requires k < |entries|
    ensures Flat(encode, entries) ==
            Flat(encode, entries[..k]) + EntryBytes(encode, entries[k]) + Flat(encode, entries[k + 1..])
  {
    Split(entries, k);
    FlatAppend(encode, entries[..k] + [entries[k]], entries[k + 1..]);
    FlatSnoc(encode, entries[..k], entries[k]);
  }

  lemma Regroup(a: Bytes, s: Bytes, h: Bytes, o: Bytes, b: Bytes)
    ensures a + (s + h + [Newline] + o) + b == (a + s) + (h + ([Newline] + (o + b)))
  {
    var n := [Newline];
    Assoc(a, s + h + n + o, b);
    Assoc(s + h + n, o, b);
    Assoc(s + h, n, o + b);
    Assoc(s, h, n + (o + b));
    Assoc(a, s, h + (n + (o + b)));
  }

  /** More output of the last invocation. */
  function WithOutput(entries: seq<Entry>, chunk: Bytes): seq<Entry>
    requires entries != []
  {
    var last := |entries| - 1;
    entries[last := entries[last].(output := entries[last].output + chunk)]
  }

  function WithHeader(entries: seq<Entry>, k: nat, h: Header): seq<Entry>
    requires k < |entries|
  {
    entries[k := entries[k].(header := h)]
  }

  /** The invocation with this session id, and otherwise as it was. */
  predicate OnlySessionChanged(e: Entry, e': Entry, id: Option<string>)
  {
    && e'.header.sessionId == id && e'.separator == e.separator && e'.output == e.output
    && e'.header.role == e.header.role && e'.header.runKind == e.header.runKind && e'.header.prompt == e.header.prompt
  }

  /** Rewriting a header changes nothing before it and nothing after it. */
  lemma HeaderRewritten(encode: Header -> Bytes, entries: seq<Entry>, k: nat, h: Header)
    requires k < |entries|
    ensures Before(encode, WithHeader(entries, k, h), k) == Before(encode, entries, k)
    ensures After(encode, WithHeader(entries, k, h), k) == After(encode, entries, k)
  {
    var new_ := WithHeader(entries, k, h);
    assert new_[..k] == entries[..k] && new_[k + 1..] == entries[k + 1..];
  }

  /** The last byte of the first n invocations, for n > 0, is the output's last byte or the newline of the header. */
  lemma LastByte(encode: Header -> Bytes, entries: seq<Entry>)
    requires entries != []
    ensures
      var e, f := entries[|entries| - 1], Flat(encode, entries);
      f != [] && f[|f| - 1] == if e.output == [] then Newline else e.output[|e.output| - 1]
  {
    var e := entries[|entries| - 1];
    var f := Flat(encode, entries);
    assert f == Flat(encode, entries[..|entries| - 1]) + EntryBytes(encode, e);
  }

  lemma SeparatorsStay(encode: Header -> Bytes, entries: seq<Entry>, k: nat, h: Header)
    requires k < |entries| && SeparatorsFit(encode, entries)
    ensures SeparatorsFit(encode, WithHeader(entries, k, h))
  {
    var new_ := WithHeader(entries, k, h);
    forall j | 0 <= j < |new_|
      ensures new_[j].separator == SeparatorAfter(Flat(encode, new_[..j]))
    {
      assert entries[j].separator == SeparatorAfter(Flat(encode, entries[..j]));
      SameLastByte(encode, entries, k, h, j);
    }
  }

  lemma SeparatorByOutput(encode: Header -> Bytes, a: seq<Entry>, b: seq<Entry>)
    requires a != [] && b != [] && a[|a| - 1].output == b[|b| - 1].output
    ensures SeparatorAfter(Flat(encode, a)) == SeparatorAfter(Flat(encode, b))
  {
    LastByte(encode, a);
    LastByte(encode, b);
  }

  lemma SameLastByte(encode: Header -> Bytes, entries: seq<Entry>, k: nat, h: Header, j: nat)
    requires k < |entries| && j <= |entries|
    ensures SeparatorAfter(Flat(encode, WithHeader(entries, k, h)[..j])) == SeparatorAfter(Flat(encode, entries[..j]))
  {
    var new_ := WithHeader(entries, k, h);
    if j > 0 {
      var a, b := entries[..j], new_[..j];
      assert a[|a| - 1].output == b[|b| - 1].output;
      SeparatorByOutput(encode, a, b);
    } else {
      assert new_[..0] == entries[..0];
    }
  }

  /** A blank line comes before every header but the first, which begins the file. */
  lemma BlankLineBefore(encode: Header -> Bytes, entries: seq<Entry>, k: nat)
    requires k < |entries| && SeparatorsFit(encode, entries)
    ensures k == 0 ==> HeaderStart(encode, entries, k) == 0
    ensures k > 0 ==>
              var at := HeaderStart(encode, entries, k);
              2 <= at <= |Flat(encode, entries)| && Flat(encode, entries)[at - 2..at] == [Newline, Newline]
  {
    StartIsLength(encode, entries, k);
    if k > 0 {
      BeforeIsPrefix(encode, entries, k);
      BeforeIsBlank(encode, entries, k);
      EndOfPrefix(Before(encode, entries, k), Flat(encode, entries));
    } else {
      NothingInFront(encode, entries);
    }
  }

  lemma StartIsLength(encode: Header -> Bytes, entries: seq<Entry>, k: nat)
    requires k < |entries|
    ensures HeaderStart(encode, entries, k) == |Before(encode, entries, k)|
  {
  }

  lemma NothingInFront(encode: Header -> Bytes, entries: seq<Entry>)
    requires entries != [] && SeparatorsFit(encode, entries)
    ensures HeaderStart(encode, entries, 0) == 0
  {
    assert entries[..0] == [];
    assert entries[0].separator == SeparatorAfter(Flat(encode, entries[..0]));
  }

  lemma BeforeIsBlank(encode: Header -> Bytes, entries: seq<Entry>, k: nat)
    requires 0 < k < |entries| && SeparatorsFit(encode, entries)
    ensures var b := Before(encode, entries, k); |b| >= 2 && b[|b| - 2..] == [Newline, Newline]
  {
    assert entries[k].separator == SeparatorAfter(Flat(encode, entries[..k]));
    LastByte(encode, entries[..k]);
    EndsBlank(Flat(encode, entries[..k]));
  }

  lemma EndOfPrefix(b: Bytes, file: Bytes)
    requires b <= file && |b| >= 2
    ensures file[|b| - 2..|b|] == b[|b| - 2..]
  {
    assert file[..|b|] == b;
  }

  lemma BeforeIsPrefix(encode: Header -> Bytes, entries: seq<Entry>, k: nat)
    requires k < |entries|
    ensures Before(encode, entries, k) <= Flat(encode, entries)
  {
    FlatAround(encode, entries, k);
  }

  lemma EndsBlank(bytes: Bytes)
    requires bytes != []
    ensures var b := bytes + SeparatorAfter(bytes); |b| >= 2 && b[|b| - 2..] == [Newline, Newline]
  {
  }

  // ---------- the logs ----------

  /** The file is exactly these invocations, each set off as it should be. */
  predicate FileIs(encode: Header -> Bytes, bytes: Bytes, entries: seq<Entry>)
  {
    bytes == Flat(encode, entries) && SeparatorsFit(encode, entries)
  }

  /** The file with a separator and a line written at its end. */
  function WithLine(file: Bytes, separator: Bytes, line: Bytes): Bytes
  {
    file + separator + line + [Newline]
  }

  predicate HasLineFrom(file: Bytes, start: nat)
  {
    start <= |file| && FindNewline(file[start..]) >= 0
  }

  /** The file with the line that begins at a position replaced. */
  function Spliced(file: Bytes, start: nat, line: Bytes): Bytes
    requires HasLineFrom(file, start)
  {
    file[..start] + (line + ([Newline] + file[start..][FindNewline(file[start..]) + 1..]))
  }

  /** Seek, read the rest, cut it behind its first newline, seek back, write the new line and the tail, truncate. */
  method SpliceHeader(file: Bytes, start: nat, line: Bytes) returns (spliced: Bytes)
    requires HasLineFrom(file, start)
    ensures spliced == Spliced(file, start, line)
  {
    var remainder := file[start..];
    var tail := remainder[FindNewline(remainder) + 1..];
    spliced := file[..start] + (line + ([Newline] + tail));
  }

  /** One invocation: where its header begins, and what the header says. */
  class WorkInvocationLog {
    const start: nat
    var header: Header

    constructor (start: nat, header: Header)
      ensures this.start == start && this.header == header
    {
      this.start, this.header := start, header;
    }
  }

  /** `entries` is the history of the file; `at` is the place in it of the invocation opened last. */
  class LogicalInvocationLog {
    const encode: Header -> Bytes
    var bytes: Bytes
    var latest: WorkInvocationLog?
    ghost var entries: seq<Entry>
    ghost var at: nat

    ghost predicate Valid()
      reads this, latest
    {
      && OneLineEncoder(encode)
      && FileIs(encode, bytes, entries)
      && (latest != null ==> at < |entries| && latest.header == entries[at].header && latest.start == HeaderStart(encode, entries, at))
    }

    constructor (encode: Header -> Bytes)
      requires OneLineEncoder(encode)
      ensures Valid() && bytes == [] && entries == [] && latest == null
    {
      this.encode := encode;
      bytes, latest, entries, at := [], null, [], 0;
    }

    /** Separator and header of a new invocation, at the end of the file. */
    method WriteHeader(header: Header) returns (start: nat)
      requires Valid()
      modifies this`bytes, this`entries
      ensures Valid() && entries == old(entries) + [Entry(SeparatorAfter(old(bytes)), header, [])]
      ensures |entries| == |old(entries)| + 1 && entries[|old(entries)|].header == header
      ensures start == HeaderStart(encode, entries, |old(entries)|)
    {
      var separator := SeparatorAfter(bytes);
      start := |bytes| + |separator|;
      ghost var entry := Entry(separator, header, []);
      EntryAdded(encode, bytes, entries, entry);
      if latest != null {
        StartKept(encode, entries, entry, at);
      }
      bytes := WithLine(bytes, separator, encode(header));
      entries := entries + [entry];
    }

    /** pycastle's `open_work_invocation`. */
    method OpenWorkInvocation(header: Header)
      requires Valid()
      modifies this
      ensures Valid() && entries == old(entries) + [Entry(SeparatorAfter(old(bytes)), header, [])]
      ensures latest != null && at == |old(entries)|
      ensures AddsBlankAndLine(old(bytes), bytes, encode(header))
    {
      ghost var place := |entries|;
      EntryAddsLine(encode, bytes, entries, header);
      var start := WriteHeader(header);
      at := place;
      latest := new WorkInvocationLog(start, header);
    }

    /** Chunks go to the end of the file, wherever a header was rewritten meanwhile. */
    method AppendProviderChunk(chunk: Bytes)
      requires Valid() && entries != []
      modifies this`bytes, this`entries
      ensures Valid() && entries == WithOutput(old(entries), chunk) && bytes == old(bytes) + chunk
    {
      ChunkAdded(encode, entries, chunk);
      if latest != null {
        PrefixKept(entries, chunk, at);
      }
      bytes := bytes + chunk;
      entries := WithOutput(entries, chunk);
    }

    /** pycastle's `append_work_invocation`: a whole invocation that does not become the latest one. */
    method AppendWorkInvocation(header: Header, chunk: Bytes)
      requires Valid()
      modifies this
      ensures Valid() && entries == old(entries) + [Entry(SeparatorAfter(old(bytes)), header, chunk)]
      ensures latest == old(latest) && at == old(at)
    {
      var _ := WriteHeader(header);
      OutputOfNew(old(entries), Entry(SeparatorAfter(old(bytes)), header, []), chunk);
      AppendProviderChunk(chunk);
    }

    /** pycastle's `record_provider_session_id` for the invocation opened last. False is the error that none was opened. */
    method RecordProviderSessionId(id: Option<string>) returns (ok: bool)
      requires Valid()
      modifies this, latest
      ensures Valid() && ok == (old(latest) != null) && latest == old(latest) && at == old(at)
      ensures entries == if ok then WithHeader(old(entries), at, old(entries)[at].header.(sessionId := id)) else old(entries)
      ensures ok ==> |entries| == |old(entries)| && OnlySessionChanged(old(entries)[at], entries[at], id)
      ensures ok ==> forall k :: 0 <= k < |entries| && k != at ==> entries[k] == old(entries)[k]
    {
      if latest == null {
        return false;
      }
      ok := true;
      if latest.header.sessionId == id {
        assert entries == WithHeader(entries, at, latest.header.(sessionId := id));
        return;
      }
      Rewrite(latest.header.(sessionId := id));
    }

    method Rewrite(header: Header)
      requires Valid() && latest != null
      modifies this`bytes, this`entries, latest
      ensures Valid() && entries == WithHeader(old(entries), at, header)
    {
      HeaderReplaced(encode, entries, at, header);
      bytes := SpliceHeader(bytes, latest.start, encode(header));
      latest.header := header;
      entries := WithHeader(entries, at, header);
    }
  }

  lemma EntryAdded(encode: Header -> Bytes, bytes: Bytes, entries: seq<Entry>, e: Entry)
    requires FileIs(encode, bytes, entries) && e.separator == SeparatorAfter(bytes) && e.output == []
    ensures FileIs(encode, WithLine(bytes, e.separator, encode(e.header)), entries + [e])
    ensures HeaderStart(encode, entries + [e], |entries|) == |bytes| + |e.separator|
  {
    assert (entries + [e])[..|entries|] == entries;
    EntryBytesAdded(encode, entries, e);
    forall k | 0 <= k < |entries + [e]|
      ensures (entries + [e])[k].separator == SeparatorAfter(Flat(encode, (entries + [e])[..k]))
    {
      assert (entries + [e])[..k] == entries[..k];
    }
  }

  lemma EntryAddsLine(encode: Header -> Bytes, bytes: Bytes, entries: seq<Entry>, header: Header)
    requires OneLineEncoder(encode) && FileIs(encode, bytes, entries)
    ensures AddsBlankAndLine(bytes, Flat(encode, entries + [Entry(SeparatorAfter(bytes), header, [])]), encode(header))
  {
    EntryAdded(encode, bytes, entries, Entry(SeparatorAfter(bytes), header, []));
    OneBlankLineIsAdded(bytes, encode(header));
  }

  lemma EntryBytesAdded(encode: Header -> Bytes, entries: seq<Entry>, e: Entry)
    requires e.output == []
    ensures Flat(encode, entries + [e]) == WithLine(Flat(encode, entries), e.separator, encode(e.header))
  {
    var f, n := Flat(encode, entries), [Newline];
    FlatSnoc(encode, entries, e);
    assert EntryBytes(encode, e) == e.separator + encode(e.header) + n;
    Assoc(e.separator, encode(e.header), n);
    Assoc(f + e.separator, encode(e.header), n);
    Assoc(f, e.separator, encode(e.header) + n);
  }

  lemma StartKept(encode: Header -> Bytes, entries: seq<Entry>, e: Entry, k: nat)
    requires k < |entries|
    ensures HeaderStart(encode, entries + [e], k) == HeaderStart(encode, entries, k)
  {
    assert (entries + [e])[..k] == entries[..k];
  }

  lemma OutputOfNew(entries: seq<Entry>, e: Entry, chunk: Bytes)
    requires e.output == []
    ensures WithOutput(entries + [e], chunk) == entries + [e.(output := chunk)]
  {
    assert [] + chunk == chunk;
  }

  lemma ChunkAdded(encode: Header -> Bytes, entries: seq<Entry>, chunk: Bytes)
    requires entries != [] && SeparatorsFit(encode, entries)
    ensures Flat(encode, WithOutput(entries, chunk)) == Flat(encode, entries) + chunk
    ensures SeparatorsFit(encode, WithOutput(entries, chunk))
  {
    ChunkAtEnd(encode, entries, chunk);
    ChunkKeepsSeparators(encode, entries, chunk);
  }

  lemma ChunkKeepsSeparators(encode: Header -> Bytes, entries: seq<Entry>, chunk: Bytes)
    requires entries != [] && SeparatorsFit(encode, entries)
    ensures SeparatorsFit(encode, WithOutput(entries, chunk))
  {
    var more := WithOutput(entries, chunk);
    forall k | 0 <= k < |more|
      ensures more[k].separator == SeparatorAfter(Flat(encode, more[..k]))
    {
      PrefixKept(entries, chunk, k);
      assert entries[k].separator == SeparatorAfter(Flat(encode, entries[..k]));
    }
  }

  lemma PrefixKept(entries: seq<Entry>, chunk: Bytes, k: nat)
    requires k < |entries|
    ensures WithOutput(entries, chunk)[..k] == entries[..k]
    ensures WithOutput(entries, chunk)[k].separator == entries[k].separator && WithOutput(entries, chunk)[k].header == entries[k].header
  {
  }

  lemma ChunkAtEnd(encode: Header -> Bytes, entries: seq<Entry>, chunk: Bytes)
    requires entries != []
    ensures Flat(encode, WithOutput(entries, chunk)) == Flat(encode, entries) + chunk
  {
    var last := |entries| - 1;
    var e := entries[last];
    assert WithOutput(entries, chunk)[..last] == entries[..last];
    var h := e.separator + encode(e.header) + [Newline];
    Assoc(h, e.output, chunk);
    Assoc(Flat(encode, entries[..last]), h + e.output, chunk);
  }

  /** Cutting the file at the header's start and at the first newline after it takes out the old header and nothing else. */
  lemma HeaderReplaced(encode: Header -> Bytes, entries: seq<Entry>, k: nat, h: Header)
    requires k < |entries| && OneLineEncoder(encode) && SeparatorsFit(encode, entries)
    ensures HasLineFrom(Flat(encode, entries), HeaderStart(encode, entries, k))
    ensures Flat(encode, WithHeader(entries, k, h)) == Spliced(Flat(encode, entries), HeaderStart(encode, entries, k), encode(h))
    ensures SeparatorsFit(encode, WithHeader(entries, k, h))
    ensures HeaderStart(encode, WithHeader(entries, k, h), k) == HeaderStart(encode, entries, k)
  {
    SeparatorsStay(encode, entries, k, h);
    FlatAround(encode, entries, k);
    CutAt(Before(encode, entries, k), encode(entries[k].header), After(encode, entries, k));
    RewrittenFlat(encode, entries, k, h);
  }

  lemma RewrittenFlat(encode: Header -> Bytes, entries: seq<Entry>, k: nat, h: Header)
    requires k < |entries|
    ensures Flat(encode, WithHeader(entries, k, h)) == Before(encode, entries, k) + (encode(h) + ([Newline] + After(encode, entries, k)))
    ensures HeaderStart(encode, WithHeader(entries, k, h), k) == HeaderStart(encode, entries, k)
  {
    FlatAround(encode, WithHeader(entries, k, h), k);
    HeaderRewritten(encode, entries, k, h);
  }

  /** A rewritten header moves every later header by the difference in length, so the offset kept for a later invocation
      is right afterwards exactly when the two encoded headers are equally long. */
  lemma LaterHeadersMove(encode: Header -> Bytes, entries: seq<Entry>, k: nat, h: Header, j: nat)
    requires k < j < |entries|
    ensures HeaderStart(encode, WithHeader(entries, k, h), j) ==
            HeaderStart(encode, entries, j) + |encode(h)| - |encode(entries[k].header)|
  {
    var a := entries[..j];
    assert WithHeader(entries, k, h)[..j] == WithHeader(a, k, h);
    FlatAround(encode, a, k);
    FlatAround(encode, WithHeader(a, k, h), k);
    HeaderRewritten(encode, a, k, h);
  }

  lemma CutAt(before: Bytes, line: Bytes, after: Bytes)
    requires Newline !in line
    ensures
      var file := before + (line + ([Newline] + after));
      && file[..|before|] == before && FindNewline(file[|before|..]) == |line|
      && file[|before|..][|line| + 1..] == after
  {
    var rest := line + ([Newline] + after);
    assert (before + rest)[|before|..] == rest;
    assert rest[|line|] == Newline;
    assert forall i :: 0 <= i < |line| ==> rest[i] == line[i] && line[i] in line;
    assert rest[|line| + 1..] == after;
  }
}
