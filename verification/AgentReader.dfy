// One read of the channels table: account check, select with fallback to the select without channel_info (agent/reader.js).
// The network and the database are a World: what each attempted statement would come back with.
module AgentReader {

  const FULL_RETRY := 10 * 60 * 1000

  datatype Failure = AccountTooBroad | DbFailure(code: string, hourly: bool)

  // An error that names the channel_info column as missing is told apart from all others.
  datatype Reply = Rows(rows: seq<string>) | MissingColumn | Broken(failure: DbError)
  datatype DbError = DbError(code: string, hourly: bool)

  datatype Inspection = NothingToInspect | Fine | ChannelsMissing | TooBroad | InspectionBroken(failure: DbError)
  datatype Opening = Opened | NotOpened(failure: DbError)

  // `first` and `second` answer the first and the second select of this read; the clock is read twice.
  datatype World = World(opening: Opening, inspection: Inspection, first: Reply, second: Reply, asked: int, fallenBack: int)

  datatype Account = Unchecked | Passed | Refused
  datatype ReaderState = ReaderState(withChannelInfo: bool, retryFullAt: int, account: Account)
  datatype Statement = Inspect | SelectFull | SelectReduced

  datatype Outcome = Read(rows: seq<string>) | Failed(failure: Failure)
  datatype Done = Done(next: ReaderState, outcome: Outcome, issued: seq<Statement>)

  const NEW := ReaderState(true, 0, Unchecked)

  function FailureOf(e: DbError): Failure { DbFailure(e.code, e.hourly) }

  function OutcomeOf(r: Reply): Outcome {
    match r
    case Rows(rows) => Read(rows)
    case MissingColumn => Failed(DbFailure("DB_ERROR", false))
    case Broken(e) => Failed(FailureOf(e))
  }

  function Fetch(s: ReaderState, w: World): Done {
    if !s.withChannelInfo && w.asked >= s.retryFullAt then
      match w.first
      case Rows(rows) => Done(s.(withChannelInfo := true), Read(rows), [SelectFull])
      case Broken(e) => Done(s, Failed(FailureOf(e)), [SelectFull])
      case MissingColumn => Done(s.(retryFullAt := w.fallenBack + FULL_RETRY), OutcomeOf(w.second), [SelectFull, SelectReduced])
    else if s.withChannelInfo && w.first.MissingColumn? then
      Done(s.(withChannelInfo := false, retryFullAt := w.fallenBack + FULL_RETRY), OutcomeOf(w.second), [SelectFull, SelectReduced])
    else Done(s, OutcomeOf(w.first), [if s.withChannelInfo then SelectFull else SelectReduced])
  }

  function After(issued: seq<Statement>, d: Done): Done { d.(issued := issued + d.issued) }

  function ReadStep(s: ReaderState, w: World): Done {
    if s.account.Refused? then Done(s, Failed(AccountTooBroad), [])
    else if w.opening.NotOpened? then Done(s, Failed(FailureOf(w.opening.failure)), [])
    else if s.account.Passed? then Fetch(s, w)
    else
      match w.inspection
      case NothingToInspect => Fetch(s.(account := Passed), w)
      case InspectionBroken(e) => Done(s, Failed(FailureOf(e)), [Inspect])
      case ChannelsMissing => Done(s, Failed(DbFailure("TABLE_MISSING", false)), [Inspect])
      case TooBroad => Done(s.(account := Refused), Failed(AccountTooBroad), [Inspect])
      case Fine => After([Inspect], Fetch(s.(account := Passed), w))
  }

  lemma SelectsOfAFetch(s: ReaderState, w: World)
    ensures var d := Fetch(s, w);
            && 1 <= |d.issued| <= 2 && Inspect !in d.issued
            && d.next.account == s.account && d.outcome != Failed(AccountTooBroad)
  {}

  // At most three statements; none once the account was refused; the table is read only by an account that passed.
  lemma StatementsOfARead(s: ReaderState, w: World)
    ensures var d := ReadStep(s, w);
            && |d.issued| <= 3 && (s.account.Passed? ==> |d.issued| <= 2)
            && (s.account.Refused? ==> d == Done(s, Failed(AccountTooBroad), []))
            && (s.account.Passed? ==> d.next.account.Passed?)
            && (SelectFull in d.issued || SelectReduced in d.issued || d.outcome.Read? ==> d.next.account.Passed?)
            && (d.outcome == Failed(AccountTooBroad) <==> d.next.account.Refused?)
            && (Inspect in d.issued ==> s.account.Unchecked? && d.issued[0] == Inspect && Inspect !in d.issued[1..])
  {
    hide Fetch;
    var f := Fetch(s.(account := Passed), w);
    SelectsOfAFetch(s, w);
    SelectsOfAFetch(s.(account := Passed), w);
    assert After([Inspect], f).issued[1..] == f.issued;
  }

  // Over any run of reads: nothing is issued after a refusal, and every select comes after the check was passed.
  function Reads(s: ReaderState, ws: seq<World>): ReaderState {
    if ws == [] then s else ReadStep(Reads(s, ws[..|ws| - 1]), ws[|ws| - 1]).next
  }

  lemma {:induction false} RefusedForGood(s: ReaderState, ws: seq<World>, more: seq<World>)
    requires Reads(s, ws).account.Refused?
    ensures Reads(s, ws + more) == Reads(s, ws)
  {
    if more == [] {
      assert ws + more == ws;
    } else {
      RefusedForGood(s, ws, more[..|more| - 1]);
      assert (ws + more)[..|ws + more| - 1] == ws + more[..|more| - 1];
    }
  }

  // Between two selects with channel_info lie ten minutes, once the first of them met the missing column.
  lemma {:induction false} FullSelectsAreSpaced(s: ReaderState, w: World, between: seq<World>, again: World)
    requires SelectFull in ReadStep(s, w).issued && w.first.MissingColumn?
    requires forall i :: 0 <= i < |between| ==> SelectFull !in ReadStep(Reads(ReadStep(s, w).next, between[..i]), between[i]).issued
    requires SelectFull in ReadStep(Reads(ReadStep(s, w).next, between), again).issued
    ensures again.asked >= w.fallenBack + FULL_RETRY
  {
    StaysReduced(ReadStep(s, w).next, between);
  }

  lemma WaitsReduced(s: ReaderState, w: World)
    requires !s.withChannelInfo && SelectFull !in ReadStep(s, w).issued
    ensures ReadStep(s, w).next == s.(account := ReadStep(s, w).next.account)
  {
    var f := Fetch(s.(account := Passed), w);
    assert SelectFull in f.issued ==> SelectFull in After([Inspect], f).issued;
  }

  lemma {:induction false} StaysReduced(s: ReaderState, ws: seq<World>)
    requires !s.withChannelInfo && forall i :: 0 <= i < |ws| ==> SelectFull !in ReadStep(Reads(s, ws[..i]), ws[i]).issued
    ensures !Reads(s, ws).withChannelInfo && Reads(s, ws).retryFullAt == s.retryFullAt
  {
    if ws != [] {
      var front := ws[..|ws| - 1];
      forall i | 0 <= i < |front| ensures SelectFull !in ReadStep(Reads(s, front[..i]), front[i]).issued {
        assert front[..i] == ws[..i] && front[i] == ws[i];
      }
      StaysReduced(s, front);
      assert SelectFull !in ReadStep(Reads(s, ws[..|front|]), ws[|front|]).issued;
      WaitsReduced(Reads(s, front), ws[|front|]);
    }
  }

  // The reader's own state; one read at a time.
  class Reader {
    var withChannelInfo: bool
    var retryFullAt: int
    var account: Account

    constructor ()
      ensures Now() == NEW
    {
      withChannelInfo, retryFullAt, account := true, 0, Unchecked;
    }

    function Now(): ReaderState
      reads this
    {
      ReaderState(withChannelInfo, retryFullAt, account)
    }

    method FetchRows(w: World) returns (outcome: Outcome, issued: seq<Statement>)
      modifies this
      ensures Done(Now(), outcome, issued) == Fetch(old(Now()), w)
    {
      issued := [];
      if !withChannelInfo && w.asked >= retryFullAt {
        issued := [SelectFull];
        if w.first.Rows? {
          withChannelInfo := true;
          return Read(w.first.rows), issued;
        }
        if !w.first.MissingColumn? { return OutcomeOf(w.first), issued; }
        retryFullAt := w.fallenBack + FULL_RETRY;
      }
      var reply := if issued == [] then w.first else w.second;
      issued := issued + [if withChannelInfo then SelectFull else SelectReduced];
      if !reply.Rows? && withChannelInfo && reply.MissingColumn? {
        withChannelInfo := false;
        retryFullAt := w.fallenBack + FULL_RETRY;
        return OutcomeOf(w.second), issued + [SelectReduced];
      }
      outcome := OutcomeOf(reply);
    }

    method ReadRows(w: World) returns (outcome: Outcome, issued: seq<Statement>)
      modifies this
      ensures Done(Now(), outcome, issued) == ReadStep(old(Now()), w)
    {
      if account.Refused? { return Failed(AccountTooBroad), []; }
      if w.opening.NotOpened? { return Failed(FailureOf(w.opening.failure)), []; }
      issued := [];
      if account.Unchecked? && !w.inspection.NothingToInspect? {
        issued := [Inspect];
        match w.inspection {
          case InspectionBroken(e) => return Failed(FailureOf(e)), issued;
          case ChannelsMissing => return Failed(DbFailure("TABLE_MISSING", false)), issued;
          case TooBroad =>
            account := Refused;
            return Failed(AccountTooBroad), issued;
          case Fine => account := Passed;
        }
      } else if account.Unchecked? {
        account := Passed;
      }
      var selects;
      outcome, selects := FetchRows(w);
      issued := issued + selects;
    }
  }
}
