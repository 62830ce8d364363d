/** Finding an agent's tagged block in its prose: from the last closing tag, through the opening tags in front of it. */
module RetryParse {
  import opened Outcomes

  /** A body parser gives a value, fails with the error that makes the search go on, or raises another one. */
  datatype Parsed<+T, +E> = Value(value: T) | Fails(error: E) | Raises

  datatype Answer<+T, +E> = Found(value: T) | NoBlock | AllFail(error: E) | Raised

  function OpenTag(tag: string): string { "<" + tag + ">" }

  function CloseTag(tag: string): string { "</" + tag + ">" }

  predicate Occurs(text: string, s: string, i: int)
  {
    0 <= i && i + |s| <= |text| && text[i..i + |s|] == s
  }

  /** The last occurrence that ends at or before a position, or -1. */
  function RFind(text: string, s: string, pos: nat): (r: int)
    requires pos <= |text|
    ensures r == -1 || (Occurs(text, s, r) && r + |s| <= pos)
    ensures forall i :: r < i && i + |s| <= pos ==> !Occurs(text, s, i)
    decreases pos
  {
    if pos < |s| then -1
    else if text[pos - |s|..pos] == s then pos - |s|
    else if pos == 0 then -1
    else RFind(text, s, pos - 1)
  }

  /** The positions of the opening tags, as the search meets them. */
  function Visits(text: string, open: string, pos: nat): seq<nat>
    requires pos <= |text| && open != ""
    decreases pos
  {
    var start := RFind(text, open, pos);
    if start < 0 then [] else [start] + Visits(text, open, start)
  }

  /** Two occurrences of an opening tag never overlap, as long as the tag's name holds no bracket. */
  lemma OpensDoNotOverlap(text: string, tag: string, i: int, j: int)
    requires '<' !in tag && Occurs(text, OpenTag(tag), i) && Occurs(text, OpenTag(tag), j) && i < j
    ensures i + |OpenTag(tag)| <= j
  {
    var open := OpenTag(tag);
    assert text[j..j + |open|][0] == open[0] == '<';
    if j < i + |open| {
      assert text[i..i + |open|][j - i] == text[j];
      OpenOneBracket(tag, j - i);
    }
  }

  lemma OpenOneBracket(tag: string, k: nat)
    requires '<' !in tag && 0 < k < |OpenTag(tag)|
    ensures OpenTag(tag)[k] != '<'
  {
    if k <= |tag| {
      assert OpenTag(tag)[k] == tag[k - 1];
    }
  }

  /** The search visits exactly the opening tags that end at or before the position, from right to left. */
  lemma {:induction false} VisitsAreTheOpens(text: string, tag: string, pos: nat)
    requires pos <= |text| && '<' !in tag
    ensures forall i :: i in Visits(text, OpenTag(tag), pos) <==> Occurs(text, OpenTag(tag), i) && i + |OpenTag(tag)| <= pos
    ensures forall a, b :: 0 <= a < b < |Visits(text, OpenTag(tag), pos)| ==> Visits(text, OpenTag(tag), pos)[a] > Visits(text, OpenTag(tag), pos)[b]
    decreases pos
  {
    var open := OpenTag(tag);
    var start := RFind(text, open, pos);
    if start >= 0 {
      VisitsAreTheOpens(text, tag, start);
      var rest := Visits(text, open, start);
      forall i
        ensures i in [start] + rest <==> Occurs(text, open, i) && i + |open| <= pos
      {
        if Occurs(text, open, i) && i < start {
          OpensDoNotOverlap(text, tag, i, start);
        }
      }
      forall b | 0 <= b < |rest|
        ensures rest[b] < start
      {
        assert rest[b] in rest;
      }
    }
  }

  /** Where the last closing tag begins, or -1. */
  function End(text: string, tag: string): int
  {
    RFind(text, CloseTag(tag), |text|)
  }

  function Body(text: string, tag: string, start: nat): string
    requires Occurs(text, OpenTag(tag), start) && start + |OpenTag(tag)| <= End(text, tag)
  {
    text[start + |OpenTag(tag)|..End(text, tag)]
  }

  /** An opening tag in front of the last closing tag. */
  predicate IsStart(text: string, tag: string, i: int)
  {
    Occurs(text, OpenTag(tag), i) && i + |OpenTag(tag)| <= End(text, tag)
  }

  /** Every opening tag to the right fails. */
  predicate FailsAfter<T, E>(text: string, tag: string, parse: string -> Parsed<T, E>, i: int)
  {
    forall j :: i < j <= |text| && IsStart(text, tag, j) ==> parse(Body(text, tag, j)).Fails?
  }

  /** What the search must answer: the shortest candidate that parses; failing all of them, the error of the longest. */
  ghost predicate IsAnswer<T(!new), E(!new)>(text: string, tag: string, parse: string -> Parsed<T, E>, r: Answer<T, E>)
  {
    match r
    case Found(v) => exists i :: IsStart(text, tag, i) && parse(Body(text, tag, i)) == Value(v) && FailsAfter(text, tag, parse, i)
    case Raised => exists i :: IsStart(text, tag, i) && parse(Body(text, tag, i)).Raises? && FailsAfter(text, tag, parse, i)
    case NoBlock => forall i :: !IsStart(text, tag, i)
    case AllFail(e) =>
      && FailsAfter(text, tag, parse, -1)
      && exists i :: IsStart(text, tag, i) && parse(Body(text, tag, i)) == Fails(e) && forall j :: IsStart(text, tag, j) ==> i <= j
  }

  /** pycastle's `_retry_parse`. */
  method Retry<T(!new), E(!new)>(text: string, tag: string, parse: string -> Parsed<T, E>) returns (r: Answer<T, E>, ghost visited: seq<nat>)
    requires '<' !in tag
    ensures IsAnswer(text, tag, parse, r)
    ensures visited <= if End(text, tag) < 0 then [] else Visits(text, OpenTag(tag), End(text, tag))
    ensures visited == [] <==> r.NoBlock?
  {
    var end := End(text, tag);
    visited := [];
    if end == -1 {
      return NoBlock, visited;
    }
    ghost var all := Visits(text, OpenTag(tag), end);
    var state: Step<T, E> := GoOn(end, None);
    while state.GoOn?
      invariant Stands(text, tag, parse, state, all, visited)
      decreases if state.GoOn? then state.pos + 1 else 0
    {
      state, visited := TryNext(text, tag, parse, state.pos, state.last, all, visited);
    }
    return state.answer, visited;
  }

  /** The next candidate to the left, if there is one. */
  method TryNext<T(!new), E(!new)>(text: string, tag: string, parse: string -> Parsed<T, E>, pos: nat, last: Option<E>,
                                   ghost all: seq<nat>, ghost before: seq<nat>)
    returns (state: Step<T, E>, ghost visited: seq<nat>)
    requires Searching(text, tag, parse, pos, last, all, before)
    ensures Stands(text, tag, parse, state, all, visited)
    ensures state.GoOn? ==> state.pos < pos
  {
    visited := before;
    var start := RFind(text, OpenTag(tag), pos);
    if start == -1 {
      NothingLeft(text, tag, parse, pos, last, all, before);
      return Answered(if last.None? then NoBlock else AllFail(last.value)), visited;
    }
    Met(text, tag, parse, pos, last, all, before);
    visited := before + [start];
    match parse(Body(text, tag, start)) {
      case Value(v) => state := Answered(Found(v));
      case Raises => state := Answered(Raised);
      case Fails(e) => state := GoOn(start, Some(e));
    }
  }

  /** The search is over, or goes on to the left of a position with the error of the last candidate. */
  datatype Step<+T, +E> = Answered(answer: Answer<T, E>) | GoOn(pos: nat, last: Option<E>)

  ghost predicate Stands<T(!new), E(!new)>(text: string, tag: string, parse: string -> Parsed<T, E>, state: Step<T, E>,
                                           all: seq<nat>, visited: seq<nat>)
  {
    match state
    case Answered(r) => IsAnswer(text, tag, parse, r) && visited <= all && (visited == [] <==> r.NoBlock?)
    case GoOn(pos, last) => Searching(text, tag, parse, pos, last, all, visited)
  }

  /** All candidates met so far have failed, the last of them at this position. */
  ghost predicate Searching<T(!new), E(!new)>(text: string, tag: string, parse: string -> Parsed<T, E>, pos: nat, last: Option<E>,
                                              all: seq<nat>, visited: seq<nat>)
  {
    && '<' !in tag && pos <= End(text, tag)
    && (last.None? <==> visited == []) && (last.None? ==> pos == End(text, tag))
    && VisitedSoFar(text, OpenTag(tag), pos, all, visited)
    && FailsAfter(text, tag, parse, pos - 1)
    && (last.Some? ==> IsStart(text, tag, pos) && parse(Body(text, tag, pos)) == Fails(last.value))
  }

  lemma NothingLeft<T(!new), E(!new)>(text: string, tag: string, parse: string -> Parsed<T, E>, pos: nat, last: Option<E>,
                                      all: seq<nat>, visited: seq<nat>)
    requires Searching(text, tag, parse, pos, last, all, visited) && RFind(text, OpenTag(tag), pos) == -1
    ensures IsAnswer(text, tag, parse, if last.None? then NoBlock else AllFail(last.value))
  {
    NoneAcross(text, tag, parse, pos, last, all, visited);
    LeftmostFails(text, tag, parse, pos);
  }

  lemma Met<T(!new), E(!new)>(text: string, tag: string, parse: string -> Parsed<T, E>, pos: nat, last: Option<E>,
                              all: seq<nat>, visited: seq<nat>)
    requires Searching(text, tag, parse, pos, last, all, visited) && RFind(text, OpenTag(tag), pos) >= 0
    ensures
      var start := RFind(text, OpenTag(tag), pos);
      && IsStart(text, tag, start) && start < pos && VisitedSoFar(text, OpenTag(tag), start, all, visited + [start])
      && match parse(Body(text, tag, start)) {
           case Value(v) => IsAnswer(text, tag, parse, Found(v))
           case Raises => IsAnswer<T, E>(text, tag, parse, Raised)
           case Fails(e) => Searching(text, tag, parse, start, Some(e), all, visited + [start])
         }
  {
    NoneAcross(text, tag, parse, pos, last, all, visited);
    NothingBetween(text, tag, parse, RFind(text, OpenTag(tag), pos), pos);
    VisitOne(text, OpenTag(tag), pos, all, visited);
  }

  /** No opening tag reaches across the position. */
  lemma NoneAcross<T(!new), E(!new)>(text: string, tag: string, parse: string -> Parsed<T, E>, pos: nat, last: Option<E>,
                                     all: seq<nat>, visited: seq<nat>)
    requires Searching(text, tag, parse, pos, last, all, visited)
    ensures forall i :: IsStart(text, tag, i) && i < pos ==> i + |OpenTag(tag)| <= pos
  {
    if last.Some? {
      NoneOverlaps(text, tag, pos);
    }
  }

  predicate VisitedSoFar(text: string, open: string, pos: nat, all: seq<nat>, visited: seq<nat>)
  {
    open != "" && pos <= |text| && visited <= all && Visits(text, open, pos) == all[|visited|..]
  }

  lemma VisitOne(text: string, open: string, pos: nat, all: seq<nat>, visited: seq<nat>)
    requires VisitedSoFar(text, open, pos, all, visited) && RFind(text, open, pos) >= 0
    ensures VisitedSoFar(text, open, RFind(text, open, pos), all, visited + [RFind(text, open, pos)])
  {
    assert all[|visited|..][1..] == all[|visited| + 1..];
    assert all[|visited|] == all[|visited|..][0];
  }

  lemma NoneOverlaps(text: string, tag: string, start: nat)
    requires '<' !in tag && IsStart(text, tag, start)
    ensures forall i :: IsStart(text, tag, i) && i < start ==> i + |OpenTag(tag)| <= start
  {
    forall i | IsStart(text, tag, i) && i < start
      ensures i + |OpenTag(tag)| <= start
    {
      OpensDoNotOverlap(text, tag, i, start);
    }
  }

  lemma NothingBetween<T, E>(text: string, tag: string, parse: string -> Parsed<T, E>, start: nat, pos: nat)
    requires pos <= |text| && RFind(text, OpenTag(tag), pos) == start && FailsAfter(text, tag, parse, pos - 1)
    requires forall i :: IsStart(text, tag, i) && i < pos ==> i + |OpenTag(tag)| <= pos
    ensures FailsAfter(text, tag, parse, start)
  {
  }

  lemma LeftmostFails<T, E>(text: string, tag: string, parse: string -> Parsed<T, E>, pos: nat)
    requires pos <= |text| && RFind(text, OpenTag(tag), pos) == -1 && FailsAfter(text, tag, parse, pos - 1)
    requires forall i :: IsStart(text, tag, i) && i < pos ==> i + |OpenTag(tag)| <= pos
    ensures FailsAfter(text, tag, parse, -1) && forall j :: IsStart(text, tag, j) ==> pos <= j
  {
  }

  /** pycastle's `_last_tag_block`: the text between the last closing tag and the last opening tag in front of it. */
  method LastTagBlock(text: string, tag: string) returns (body: Option<string>)
    requires '<' !in tag
    ensures body.None? <==> forall i :: !IsStart(text, tag, i)
    ensures body.Some? ==> exists i :: IsStart(text, tag, i) && body.value == Body(text, tag, i) && forall j :: IsStart(text, tag, j) ==> j <= i
  {
    var end := End(text, tag);
    if end == -1 {
      return None;
    }
    var start := RFind(text, OpenTag(tag), end);
    if start == -1 {
      return None;
    }
    assert IsStart(text, tag, start);
    return Some(Body(text, tag, start));
  }

  // ---------- what comes back ----------

  /** A payload between the tags, in prose. */
  function Wrapped(prefix: string, tag: string, payload: string, suffix: string): string
  {
    prefix + OpenTag(tag) + payload + CloseTag(tag) + suffix
  }

  lemma ClosesBeforeSuffix(text: string, tag: string, at: nat, suffix: string, i: int)
    requires '<' !in tag && at + |CloseTag(tag)| + |suffix| == |text| && Occurs(text, CloseTag(tag), at)
    requires text[at + |CloseTag(tag)|..] == suffix
    requires forall k :: !Occurs(suffix, CloseTag(tag), k)
    requires i > at
    ensures !Occurs(text, CloseTag(tag), i)
  {
    var close := CloseTag(tag);
    var k := i - at;
    assert Occurs(text, close, i) ==> text[i..i + |close|][0] == close[0] == '<';
    if k < |close| {
      OneBracket(tag, k);
      assert text[at..at + |close|][k] == close[k];
    } else if i + |close| <= |text| {
      assert suffix[k - |close|..k - |close| + |close|] == text[i..i + |close|];
      assert !Occurs(suffix, close, k - |close|);
    }
  }

  lemma OneBracket(tag: string, k: nat)
    requires '<' !in tag && 0 < k < |CloseTag(tag)|
    ensures CloseTag(tag)[k] != '<'
  {
    if 2 <= k <= |tag| + 1 {
      assert CloseTag(tag)[k] == tag[k - 2];
    }
  }

  /** With no closing tag in the prose behind it, the payload ends at the last closing tag. */
  lemma WrappedEnd(prefix: string, tag: string, payload: string, suffix: string)
    requires '<' !in tag && forall k :: !Occurs(suffix, CloseTag(tag), k)
    ensures
      var text := Wrapped(prefix, tag, payload, suffix);
      && End(text, tag) == |prefix| + |OpenTag(tag)| + |payload|
      && IsStart(text, tag, |prefix|) && Body(text, tag, |prefix|) == payload
  {
    var text := Wrapped(prefix, tag, payload, suffix);
    var open, close := OpenTag(tag), CloseTag(tag);
    var at := |prefix| + |open| + |payload|;
    assert text[at..at + |close|] == close && text[at + |close|..] == suffix;
    assert text[|prefix|..|prefix| + |open|] == open;
    assert text[|prefix| + |open|..at] == payload;
    assert Occurs(text, close, at);
    if End(text, tag) > at {
      ClosesBeforeSuffix(text, tag, at, suffix, End(text, tag));
    }
  }

  lemma InnerOpensFail<T, E>(prefix: string, tag: string, payload: string, suffix: string, parse: string -> Parsed<T, E>)
    requires '<' !in tag && forall k :: !Occurs(suffix, CloseTag(tag), k)
    requires forall k :: Occurs(payload, OpenTag(tag), k) ==> parse(payload[k + |OpenTag(tag)|..]).Fails?
    ensures FailsAfter(Wrapped(prefix, tag, payload, suffix), tag, parse, |prefix|)
  {
    var text, open := Wrapped(prefix, tag, payload, suffix), OpenTag(tag);
    WrappedEnd(prefix, tag, payload, suffix);
    forall j | |prefix| < j <= |text| && IsStart(text, tag, j)
      ensures parse(Body(text, tag, j)).Fails?
    {
      OpensDoNotOverlap(text, tag, |prefix|, j);
      var k := j - |prefix| - |open|;
      var at := |prefix| + |open|;
      assert text[at..at + |payload|] == payload;
      assert payload[k..k + |open|] == text[j..j + |open|];
      assert Occurs(payload, open, k);
      assert Body(text, tag, j) == payload[k + |open|..];
    }
  }

  /** The payload is recovered from whatever prose stands around it, decoys and literal tags included, as long as
      what follows an opening tag inside the payload does not parse. */
  lemma PayloadIsRecovered<T(!new), E(!new)>(prefix: string, tag: string, payload: string, suffix: string, parse: string -> Parsed<T, E>, r: Answer<T, E>)
    requires '<' !in tag && forall k :: !Occurs(suffix, CloseTag(tag), k)
    requires parse(payload).Value?
    requires forall k :: Occurs(payload, OpenTag(tag), k) ==> parse(payload[k + |OpenTag(tag)|..]).Fails?
    requires IsAnswer(Wrapped(prefix, tag, payload, suffix), tag, parse, r)
    ensures r == Found(parse(payload).value)
  {
    var text := Wrapped(prefix, tag, payload, suffix);
    WrappedEnd(prefix, tag, payload, suffix);
    InnerOpensFail(prefix, tag, payload, suffix, parse);
    AnswerIsUnique(text, tag, parse, |prefix|, r);
  }

  /** Where everything to the right fails and the candidate itself does not, that candidate decides. */
  lemma AnswerIsUnique<T(!new), E(!new)>(text: string, tag: string, parse: string -> Parsed<T, E>, start: nat, r: Answer<T, E>)
    requires IsStart(text, tag, start) && FailsAfter(text, tag, parse, start) && parse(Body(text, tag, start)).Value?
    requires IsAnswer(text, tag, parse, r)
    ensures r == Found(parse(Body(text, tag, start)).value)
  {
    if r.Found? {
      var i :| IsStart(text, tag, i) && parse(Body(text, tag, i)) == Value(r.value) && FailsAfter(text, tag, parse, i);
      assert i == start;
    }
  }
}
