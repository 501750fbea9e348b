/** The Sysdig source: LIMIT/OFFSET pagination, and a producer that watches the context at every send. */
module Sysdig {
  import opened Endings
  import opened Values
  import Paging

  /** `count` is the number of fetched items the response reports; the offset advances by it. */
  datatype Response = Failure | Page(items: seq<Fields>, count: int)

  /** The answer to the n-th query, which asks for the page at an offset. */
  type Server = (nat, int) -> Response

  /** The offset of the n-th query. */
  function OffsetAt(server: Server, n: nat): int {
    if n == 0 then 0
    else
      var before := OffsetAt(server, n - 1);
      match server(n - 1, before)
      case Failure => before
      case Page(_, count) => before + count
  }

  function Reply(server: Server, n: nat): Response {
    server(n, OffsetAt(server, n))
  }

  predicate Continues(r: Response) {
    r.Page? && r.count != 0
  }

  /** The first n queries all call for another one. */
  ghost predicate Open(server: Server, n: nat) {
    forall k: nat | k < n :: Continues(Reply(server, k))
  }

  /** The rows the first n queries hand out. */
  function Rows(server: Server, n: nat): seq<Fields> {
    if n == 0 then []
    else Rows(server, n - 1) + match Reply(server, n - 1) case Failure => [] case Page(items, _) => items
  }

  /** None of the first n answers is yes. */
  ghost predicate NeverBefore(answers: nat -> bool, n: nat) {
    forall k: nat | k < n :: !answers(k)
  }

  /** The loop ends: one of the first `limit` queries finds the context cancelled, fails or reports nothing, or
      a send of its rows finds the context cancelled. */
  ghost predicate EndsBy(server: Server, polled: nat -> bool, cancelled: nat -> bool, limit: nat) {
    exists n: nat | n < limit ::
      polled(n) || !Continues(Reply(server, n)) || !NeverBefore(cancelled, |Rows(server, n + 1)|)
  }

  /** One page, sent after what was sent before it. `cancelled(k)` says whether the select at the k-th send
      takes ctx.Done. */
  method SendRows(rows: seq<Fields>, cancelled: nat -> bool, before: seq<Fields>) returns (sent: seq<Fields>)
    requires NeverBefore(cancelled, |before|)
    ensures before <= sent <= before + rows && NeverBefore(cancelled, |sent|)
    ensures sent == before + rows || cancelled(|sent|)
  {
    sent := before;
    for i := 0 to |rows|
      invariant sent == before + rows[..i] && NeverBefore(cancelled, |sent|)
    {
      if cancelled(|sent|) {
        return;
      }
      sent := sent + [rows[i]];
    }
  }

  /** `polled(n)` says whether the check before the n-th query finds the context cancelled. The loop ends at the
      first query that fails or reports nothing, with the rows of all the queries before it sent; or at a check,
      with the rows of all the queries made; or at a send, within the rows of the last query made. */
  method QueryAllPages(server: Server, polled: nat -> bool, cancelled: nat -> bool, ghost limit: nat)
    returns (emitted: seq<Fields>, result: Ending, queries: nat)
    requires EndsBy(server, polled, cancelled, limit)
    ensures NeverBefore(cancelled, |emitted|) && NeverBefore(polled, queries)
    ensures result == Cancelled ==>
              && (forall k: nat | k < queries :: Reply(server, k).Page? && Reply(server, k).count != 0)
              && if emitted == Rows(server, queries) then polled(queries)
                 else
                   && cancelled(|emitted|)
                   && queries > 0 && Rows(server, queries - 1) <= emitted < Rows(server, queries)
    ensures result != Cancelled ==>
              && queries > 0
              && (forall k: nat | k < queries - 1 :: Reply(server, k).Page? && Reply(server, k).count != 0)
              && emitted == Rows(server, queries - 1)
              && match Reply(server, queries - 1)
                 case Failure => result == Failed
                 case Page(_, count) => result == Completed && count == 0
  {
    emitted, queries := [], 0;
    var offset := 0;
    while true
      invariant Open(server, queries) && NeverBefore(polled, queries) && offset == OffsetAt(server, queries)
      invariant emitted == Rows(server, queries) && NeverBefore(cancelled, |emitted|)
      decreases limit - queries
    {
      QueriesLeft(server, polled, cancelled, limit, queries);
      if polled(queries) {
        return emitted, Cancelled, queries;
      }
      var resp := server(queries, offset);
      queries := queries + 1;
      if resp.Failure? {
        return emitted, Failed, queries;
      }
      if resp.count == 0 {
        return emitted, Completed, queries;
      }
      RowsOfOneMore(server, queries - 1);
      hide Rows;
      emitted := SendRows(resp.items, cancelled, emitted);
      if |emitted| < |Rows(server, queries)| {
        return emitted, Cancelled, queries;
      }
      offset := offset + resp.count;
    }
  }

  lemma {:induction false} RowsGrow(server: Server, m: nat, n: nat)
    requires m <= n
    ensures |Rows(server, m)| <= |Rows(server, n)|
  {
    if m == n {
    } else {
      RowsGrow(server, m, n - 1);
    }
  }

  lemma QueriesLeft(server: Server, polled: nat -> bool, cancelled: nat -> bool, limit: nat, n: nat)
    requires EndsBy(server, polled, cancelled, limit)
    requires Open(server, n) && NeverBefore(polled, n) && NeverBefore(cancelled, |Rows(server, n)|)
    ensures n < limit
  {
    var k: nat :| k < limit
      && (polled(k) || !Continues(Reply(server, k)) || !NeverBefore(cancelled, |Rows(server, k + 1)|));
    if k < n {
      RowsGrow(server, k + 1, n);
    }
  }

  /** From the n-th query on, at `offset`, the server hands out `rows` in pages of size p and reports truly
      how many it hands out; past the end it hands out nothing. */
  ghost predicate Serves(server: Server, n: nat, offset: int, rows: seq<Fields>, p: nat)
    requires p > 0
    decreases |rows|
  {
    if rows == [] then server(n, offset) == Page([], 0)
    else if |rows| <= p then
      server(n, offset) == Page(rows, |rows|) && server(n + 1, offset + |rows|) == Page([], 0)
    else server(n, offset) == Page(rows[..p], p) && Serves(server, n + 1, offset + p, rows[p..], p)
  }

  lemma RowsOfOneMore(server: Server, n: nat)
    requires Reply(server, n).Page?
    ensures Rows(server, n + 1) == Rows(server, n) + Reply(server, n).items
  {
  }

  /** From the n-th query on, which is at `offset`, q queries hand out `rows`, each moving the offset by the number
      it reports; the next one fails or reports nothing. */
  ghost predicate Hands(server: Server, n: nat, offset: int, rows: seq<Fields>, q: nat)
    decreases q
  {
    match server(n, offset)
    case Failure => q == 0 && rows == []
    case Page(items, count) =>
      if q == 0 then count == 0 && rows == []
      else count != 0 && items <= rows && Hands(server, n + 1, offset + count, rows[|items|..], q - 1)
  }

  lemma ConcatAssociative(a: seq<Fields>, b: seq<Fields>, c: seq<Fields>)
    ensures a + b + c == a + (b + c)
  {
  }

  lemma {:induction false} HandsTheRows(server: Server, n: nat, rows: seq<Fields>, q: nat)
    requires Open(server, n) && Hands(server, n, OffsetAt(server, n), rows, q)
    ensures Open(server, n + q) && !Continues(Reply(server, n + q))
    ensures Rows(server, n + q) == Rows(server, n) + rows
    decreases q
  {
    hide Rows;
    if q == 0 {
      assert Rows(server, n) + rows == Rows(server, n);
    } else {
      RowsOfOneMore(server, n);
      var items := Reply(server, n).items;
      HandsTheRows(server, n + 1, rows[|items|..], q - 1);
      ConcatAssociative(Rows(server, n), items, rows[|items|..]);
      assert items + rows[|items|..] == rows;
    }
  }

  /** The queries before the first that fails or reports nothing are those that hand out the rows, and these are
      what the loop sends when it is not cancelled. */
  lemma HandedRowsAreSent(server: Server, rows: seq<Fields>, q: nat, last: nat)
    requires Hands(server, 0, 0, rows, q) && Open(server, last) && !Continues(Reply(server, last))
    ensures last == q && Rows(server, last) == rows
  {
    HandsTheRows(server, 0, rows, q);
    assert [] + rows == rows;
  }

  lemma {:induction false} ServesHands(server: Server, n: nat, offset: int, rows: seq<Fields>, p: nat)
    requires p > 0 && Serves(server, n, offset, rows, p)
    ensures Hands(server, n, offset, rows, Paging.PageCount(|rows|, p))
    decreases |rows|
  {
    if rows == [] {
    } else if |rows| > p {
      ServesHands(server, n + 1, offset + p, rows[p..], p);
    } else {
      assert rows[|rows|..] == [];
      assert Hands(server, n + 1, offset + |rows|, [], 0);
    }
  }

  /** Against a server that hands out a list in pages the loop, without cancellation, ends at the query after the
      last page: it sends the rows, in order, and makes one query a page and a last one that finds nothing. */
  lemma DrainReturnsTheRows(server: Server, rows: seq<Fields>, p: nat, q: nat)
    requires p > 0 && Serves(server, 0, 0, rows, p)
    requires Open(server, q) && !Continues(Reply(server, q))
    ensures Rows(server, q) == rows && Reply(server, q).Page?
    ensures q == Paging.PageCount(|rows|, p)
  {
    ServesHands(server, 0, 0, rows, p);
    HandedRowsAreSent(server, rows, Paging.PageCount(|rows|, p), q);
    LastAnswers(server, 0, rows, p);
  }

  lemma {:induction false} LastAnswers(server: Server, n: nat, rows: seq<Fields>, p: nat)
    requires p > 0 && Serves(server, n, OffsetAt(server, n), rows, p)
    ensures Reply(server, n + Paging.PageCount(|rows|, p)).Page?
    decreases |rows|
  {
    if |rows| <= p {
      assert rows != [] ==> OffsetAt(server, n + 1) == OffsetAt(server, n) + |rows|;
    } else {
      LastAnswers(server, n + 1, rows[p..], p);
    }
  }
}
