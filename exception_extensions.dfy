/**
 * ExceptionExtensions: the texts built from an exception and the chain of its inner
 * exceptions, for logs and error reports.
 */
module ExceptionExtensions {
  import opened Wrappers
  import opened Text

  /** The kinds of exception the extensions treat specially. */
  datatype Kind =
    | General
    | Aggregate(innerExceptions: seq<Exception>)
    | TargetInvocation

  /**
   * An exception: GetType().FullName, Message, its kind, the inner exception it was
   * created with, StackTrace (null when never thrown) and the Data entries in order.
   */
  datatype Exception = Exception(
    typeName: string,
    message: string,
    kind: Kind,
    inner: Option<Exception>,
    stackTrace: Option<string>,
    data: seq<(string, string)>)

  const NullException: Error := ArgumentNull("exception")

  /** InnerException: an AggregateException's is the first of its inner exceptions. */
  function InnerException(e: Exception): (r: Option<Exception>)
    ensures r.Some? ==> r.value < e
  {
    match e.kind
    case Aggregate(inners) =>
      if |inners| > 0 then assert inners[0] in inners; Some(inners[0]) else None
    case _ => e.inner
  }

  /** The exception followed by its inner exceptions, outermost first. */
  function Chain(e: Exception): (r: seq<Exception>)
    ensures |r| > 0 && r[0] == e
    decreases e
  {
    match InnerException(e)
    case None => [e]
    case Some(i) => [e] + Chain(i)
  }

  /**
   * The text a loop over the chain writes when it writes piece(x, depth) for each
   * exception x, with a line break between consecutive pieces; depth counts from `depth`.
   */
  function Render(e: Exception, depth: nat, piece: (Exception, nat) -> string): string
    decreases e
  {
    match InnerException(e)
    case None => piece(e, depth)
    case Some(i) => piece(e, depth) + NewLine + Render(i, depth + 1, piece)
  }

  /** makeIndent: 3 dashes per level, a space, the text, and the whole trimmed. */
  function Indent(depth: nat, text: string): string {
    Trim(Replicate('-', depth * 3) + " " + text)
  }

  /** The two lines AggregateMessages writes for one exception. */
  function AggregatePiece(e: Exception, depth: nat): string {
    Indent(depth, e.typeName) + NewLine + Indent(depth, e.message)
  }

  /** The "key = value" lines of the Data entries. */
  function DataLines(data: seq<(string, string)>): string {
    if data == [] then "" else data[0].0 + " = " + data[0].1 + NewLine + DataLines(data[1..])
  }

  /** What GetFullStacktrace writes for one exception. */
  function StacktracePiece(e: Exception, depth: nat): string {
    e.typeName + NewLine + e.message + NewLine + NewLine + e.stackTrace.GetOr("") + DataLines(e.data)
  }

  /** The Exception overload of AggregateMessages, as a value. */
  function AggregateText(e: Exception): string {
    Render(e, 0, AggregatePiece)
  }

  /** GetFullStacktrace, as a value. */
  function StacktraceText(e: Exception): string {
    Render(e, 0, StacktracePiece)
  }

  /** The inner exceptions of an AggregateException. */
  function Inners(e: Exception): seq<Exception> {
    if e.kind.Aggregate? then e.kind.innerExceptions else []
  }

  /**
   * DestructMessage: an AggregateException with inner exceptions gives its message and
   * each inner exception's aggregated messages, separated by blank lines; a
   * TargetInvocationException with an inner exception gives the inner one's; anything
   * else its own Message.
   */
  function DestructMessage(e: Exception): string
    decreases e
  {
    var inners := Inners(e);
    if |inners| > 0 then
      e.message + ":" + NewLine + NewLine
      + Join(NewLine + NewLine, seq(|inners|, i requires 0 <= i < |inners| => AggregateText(inners[i])))
    else if e.kind.TargetInvocation? && e.inner.Some? then
      DestructMessage(e.inner.value)
    else e.message
  }

  // ---------------------------------------------------------------------------
  // The public entry points.

  /** DestructMessage with its null check. */
  function DestructMessageOf(e: Option<Exception>): (r: Result<string>)
    ensures e.None? <==> r == Err(NullException)
    ensures e.Some? ==> r == Ok(DestructMessage(e.value))
  {
    if e.None? then Err(NullException) else Ok(DestructMessage(e.value))
  }

  /** The AggregateException overload: each inner exception's aggregated messages, one after the other. */
  function AggregateMessagesOfAggregate(e: Option<Exception>): (r: Result<string>)
    requires e.Some? ==> e.value.kind.Aggregate?
    ensures e.None? <==> r == Err(NullException)
    ensures e.Some? && Inners(e.value) == [] ==> r == Ok("")
  {
    if e.None? then Err(NullException)
    else
      var inners := Inners(e.value);
      Ok(Join(NewLine, seq(|inners|, i requires 0 <= i < |inners| => AggregateText(inners[i]))))
  }

  /**
   * Chain depth, which the loops over the chain decrease.
   */
  function Depth(e: Exception): nat {
    |Chain(e)|
  }

  /** What a loop over the chain writes after the piece of e. */
  function After(e: Exception, depth: nat, piece: (Exception, nat) -> string): string {
    match InnerException(e)
    case None => ""
    case Some(i) => NewLine + Render(i, depth + 1, piece)
  }

  /**
   * One turn of a loop down the chain: after writing e's piece, and a line break when
   * there is an inner exception, what is left to write is the inner exception's text.
   */
  lemma RenderStep(written: string, e: Exception, depth: nat, piece: (Exception, nat) -> string, text: string)
    requires written + Render(e, depth, piece) == text
    ensures InnerException(e).None? ==> written + piece(e, depth) == text
    ensures InnerException(e).Some? ==>
      written + piece(e, depth) + NewLine + Render(InnerException(e).value, depth + 1, piece) == text
      && Depth(InnerException(e).value) < Depth(e)
    ensures written + piece(e, depth) + After(e, depth, piece) == text
  {
    if InnerException(e).Some? {
      var i := InnerException(e).value;
      assert Render(e, depth, piece) == piece(e, depth) + (NewLine + Render(i, depth + 1, piece));
    }
  }

  /** The Exception overload of AggregateMessages: a loop down the chain with a growing indent. */
  method AggregateMessages(exception: Option<Exception>) returns (r: Result<string>)
    ensures exception.None? ==> r == Err(NullException)
    ensures exception.Some? ==> r == Ok(AggregateText(exception.value))
  {
    if exception.None? {
      return Err(NullException);
    }
    ghost var text := AggregateText(exception.value);
    var sb := "";
    var indent: nat := 0;
    var current := exception;
    while current.Some?
      invariant current.Some? ==> sb + Render(current.value, indent, AggregatePiece) == text
      invariant current.None? ==> sb == text
      decreases if current.Some? then Depth(current.value) else 0
    {
      var e := current.value;
      RenderStep(sb, e, indent, AggregatePiece, text);
      sb := sb + AggregatePiece(e, indent);
      current := InnerException(e);
      if current.Some? {
        sb := sb + NewLine;
      }
      indent := indent + 1;
    }
    r := Ok(sb);
  }

  lemma DataLinesStep(data: seq<(string, string)>, k: nat)
    requires k < |data|
    ensures DataLines(data[k..]) == data[k].0 + " = " + data[k].1 + NewLine + DataLines(data[k + 1..])
  {
    assert data[k..][1..] == data[k + 1..];
  }

  /** The inner foreach of GetFullStacktrace: one "key = value" line per Data entry. */
  method AppendData(sb: string, data: seq<(string, string)>) returns (r: string)
    ensures r == sb + DataLines(data)
  {
    r := sb;
    var k := 0;
    while k < |data|
      invariant 0 <= k <= |data|
      invariant r + DataLines(data[k..]) == sb + DataLines(data)
    {
      DataLinesStep(data, k);
      r := r + data[k].0 + " = " + data[k].1 + NewLine;
      k := k + 1;
    }
    assert data[k..] == [];
    assert data[0..] == data;
  }

  /** The block GetFullStacktrace writes for one exception: type, message, a blank line, stack trace, Data. */
  method AppendBlock(sb: string, e: Exception, depth: nat) returns (r: string)
    ensures r == sb + StacktracePiece(e, depth)
  {
    r := sb + e.typeName + NewLine + e.message + NewLine + NewLine + e.stackTrace.GetOr("");
    r := AppendData(r, e.data);
  }

  /** GetFullStacktrace: a loop down the chain writing each exception's block. */
  method GetFullStacktrace(exception: Option<Exception>) returns (r: Result<string>)
    ensures exception.None? ==> r == Err(NullException)
    ensures exception.Some? ==> r == Ok(StacktraceText(exception.value))
  {
    if exception.None? {
      return Err(NullException);
    }
    ghost var text := StacktraceText(exception.value);
    var sb := "";
    var depth: nat := 0;
    var current := exception;
    while current.Some?
      invariant current.Some? ==> sb + Render(current.value, depth, StacktracePiece) == text
      invariant current.None? ==> sb == text
      decreases if current.Some? then Depth(current.value) else 0
    {
      var e := current.value;
      RenderStep(sb, e, depth, StacktracePiece, text);
      sb := AppendBlock(sb, e, depth);
      current := InnerException(e);
      if current.Some? {
        sb := sb + NewLine;
      }
      depth := depth + 1;
    }
    r := Ok(sb);
  }

  // ---------------------------------------------------------------------------
  // What the texts mean.

  /** The pieces written for the chain of e, outermost first, at depths depth, depth + 1, .... */
  function Pieces(e: Exception, depth: nat, piece: (Exception, nat) -> string): (r: seq<string>)
    ensures |r| == |Chain(e)|
    ensures forall i :: 0 <= i < |r| ==> r[i] == piece(Chain(e)[i], depth + i)
    decreases e
  {
    match InnerException(e)
    case None => [piece(e, depth)]
    case Some(inner) => [piece(e, depth)] + Pieces(inner, depth + 1, piece)
  }

  /**
   * Render visits each exception of the chain once, outermost first: its text is the
   * pieces of the chain's exceptions joined by line breaks.
   */
  lemma {:induction false} RenderIsJoinOverChain(e: Exception, depth: nat, piece: (Exception, nat) -> string)
    ensures Render(e, depth, piece) == Join(NewLine, Pieces(e, depth, piece))
    decreases e
  {
    match InnerException(e)
    case None =>
    case Some(inner) =>
      RenderIsJoinOverChain(inner, depth + 1, piece);
      var parts := Pieces(e, depth, piece);
      assert parts[1..] == Pieces(inner, depth + 1, piece);
  }

  /** An exception without inner exceptions: AggregateMessages is its trimmed type name and message on two lines. */
  lemma AggregateSingle(e: Exception)
    requires InnerException(e).None?
    ensures AggregateText(e) == Trim(" " + e.typeName) + NewLine + Trim(" " + e.message)
  {
    assert Replicate('-', 0) == "";
    assert Replicate('-', 0) + " " + e.typeName == " " + e.typeName;
    assert Replicate('-', 0) + " " + e.message == " " + e.message;
  }

  /** Each level of the chain is indented by three more dashes. */
  lemma IndentDashes(depth: nat, text: string)
    requires depth > 0
    requires |text| > 0 && !IsWhiteSpace(text[|text| - 1])
    ensures Indent(depth, text) == Replicate('-', depth * 3) + " " + text
  {
    var raw := Replicate('-', depth * 3) + " " + text;
    assert !IsWhiteSpace(raw[0]);
    assert TrimStart(raw) == raw;
    assert raw[|raw| - 1] == text[|text| - 1];
  }

  /** A TargetInvocationException wrapping e describes itself as e does, however deeply nested. */
  function Unwrapped(e: Exception): (r: Exception)
    decreases e
  {
    if |Inners(e)| == 0 && e.kind.TargetInvocation? && e.inner.Some? then Unwrapped(e.inner.value) else e
  }

  lemma {:induction false} DestructMessageUnwraps(e: Exception)
    ensures DestructMessage(e) == DestructMessage(Unwrapped(e))
    ensures var u := Unwrapped(e); !(u.kind.TargetInvocation? && u.inner.Some?)
    decreases e
  {
    if |Inners(e)| == 0 && e.kind.TargetInvocation? && e.inner.Some? {
      DestructMessageUnwraps(e.inner.value);
    }
  }

  /**
   * The AggregateException overload lists the inner exceptions in order: the first one's
   * text, a line break, then the text for the rest.
   */
  lemma AggregateOverloadSplits(e: Exception)
    requires e.kind.Aggregate? && |e.kind.innerExceptions| > 1
    ensures var rest := e.(kind := Aggregate(e.kind.innerExceptions[1..]));
            AggregateMessagesOfAggregate(Some(e)).Ok? && AggregateMessagesOfAggregate(Some(rest)).Ok?
            && AggregateMessagesOfAggregate(Some(e)).value
               == AggregateText(e.kind.innerExceptions[0]) + NewLine + AggregateMessagesOfAggregate(Some(rest)).value
  {
    var inners := e.kind.innerExceptions;
    var parts := seq(|inners|, i requires 0 <= i < |inners| => AggregateText(inners[i]));
    var tail := inners[1..];
    assert parts[1..] == seq(|tail|, i requires 0 <= i < |tail| => AggregateText(tail[i]));
  }

  /** An AggregateException with one inner exception: DestructMessage is its message, a blank line, and the AggregateException overload's text. */
  lemma DestructSingleAggregate(e: Exception)
    requires e.kind.Aggregate? && |e.kind.innerExceptions| == 1
    ensures AggregateMessagesOfAggregate(Some(e)).Ok?
    ensures DestructMessage(e) == e.message + ":" + NewLine + NewLine + AggregateMessagesOfAggregate(Some(e)).value
    ensures AggregateMessagesOfAggregate(Some(e)).value == AggregateText(e.kind.innerExceptions[0])
  {
  }
}
