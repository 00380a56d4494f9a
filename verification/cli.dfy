/** Abstractions shared by the command modules: optional values, the replies of
    the platform's REST endpoints, how a command ends, and the delete-by-index
    loop and success count that the users and applications groups share. */
module Cli {

  datatype Option<+T> = None | Some(value: T)

  /** Python truthiness of an optional string: `None` and `''` are falsy. */
  predicate Truthy(s: Option<string>)
  {
    s.Some? && s.value != ""
  }

  /** The outcome of one signed HTTP request: a 2xx response with its body, a
      non-2xx response with its status code and the server's message, or a
      `RequestException` (DNS, connection, timeout) and no response at all. */
  datatype Reply<+T> = Ok(body: T) | Failed(status: int, message: string) | NoReply

  /** How a command ends: it returns, the process exits with a status
      (`sys.exit`, a `ClickException` or an uncaught exception), or a prompt
      reads end of input, on which click aborts the process. */
  datatype Run<+T> = Returns(value: T) | Exits(status: int) | Aborted

  /** Python's `del s[i]`: the element at `i` goes, the rest keep their order. */
  function RemoveAt<T>(s: seq<T>, i: nat): (r: seq<T>)
    requires i < |s|
    ensures |r| == |s| - 1
    ensures forall j :: 0 <= j < i ==> r[j] == s[j]
    ensures forall j :: i <= j < |r| ==> r[j] == s[j + 1]
  {
    s[..i] + s[i + 1..]
  }

  lemma RemoveAtMultiset<T>(s: seq<T>, i: nat)
    requires i < |s|
    ensures multiset(RemoveAt(s, i)) == multiset(s) - multiset{s[i]}
  {
    assert s == s[..i] + [s[i]] + s[i + 1..];
    assert multiset(s) == multiset(s[..i]) + multiset{s[i]} + multiset(s[i + 1..]);
  }

  // ---------------------------------------------------------------------------
  // Batch create (`add_users_to_platform`, `add_applications_to_platform`):
  // every item is posted, successes are counted.
  // ---------------------------------------------------------------------------

  /** What the `response` variable holds after the request for item `i`: a
      transport failure is caught and leaves it holding the previous item's
      response, and before any response arrived it is unbound (`None`).
      `replies(i)` is the platform's reply to the request for item `i`. */
  function Latest(replies: nat -> Reply<()>, i: nat): (r: Option<Reply<()>>)
    ensures r.Some? ==> !r.value.NoReply?
    ensures !replies(i).NoReply? ==> r == Some(replies(i))
  {
    if !replies(i).NoReply? then Some(replies(i))
    else if i == 0 then None
    else Latest(replies, i - 1)
  }

  /** `response` is unbound only while no request has had a response. */
  lemma {:induction false} UnboundUntilFirstResponse(replies: nat -> Reply<()>, i: nat)
    ensures Latest(replies, i) == None <==> forall j :: 0 <= j <= i ==> replies(j).NoReply?
  {
    if i > 0 && replies(i).NoReply? {
      UnboundUntilFirstResponse(replies, i - 1);
    }
  }

  /** Item `i` is counted as created: the response the loop reads is a success. */
  predicate Created(replies: nat -> Reply<()>, i: nat)
  {
    Latest(replies, i).Some? && Latest(replies, i).value.Ok?
  }

  /** The count of the first `n` items the loop counts as created. */
  function CreatedCount(replies: nat -> Reply<()>, n: nat): (c: nat)
    ensures c <= n
    ensures c == n <==> forall i :: 0 <= i < n ==> Created(replies, i)
    ensures c == 0 <==> forall i :: 0 <= i < n ==> !Created(replies, i)
  {
    if n == 0 then 0
    else CreatedCount(replies, n - 1) + (if Created(replies, n - 1) then 1 else 0)
  }

  /** Without transport failures the count is exactly the number of
      successful replies. */
  lemma {:induction false} CountsSuccesses(replies: nat -> Reply<()>, n: nat)
    requires forall i :: 0 <= i < n ==> !replies(i).NoReply?
    ensures CreatedCount(replies, n) == |set i: nat | i < n && replies(i).Ok?|
  {
    if n == 0 {
      assert (set i: nat | i < n && replies(i).Ok?) == {};
    } else {
      CountsSuccesses(replies, n - 1);
      var before := set i: nat | i < n - 1 && replies(i).Ok?;
      var after := set i: nat | i < n && replies(i).Ok?;
      assert Created(replies, n - 1) <==> replies(n - 1).Ok?;
      if replies(n - 1).Ok? {
        assert after == before + {n - 1};
        assert n - 1 !in before;
        assert |after| == |before| + 1;
      } else {
        assert after == before;
      }
    }
  }

  /** A transport failure right after a success re-reads that success, so the
      item whose request never reached the platform is counted as created. */
  lemma StaleSuccessIsCounted(replies: nat -> Reply<()>)
    requires replies(0).Ok? && replies(1).NoReply?
    ensures CreatedCount(replies, 2) == 2
  {
    assert Latest(replies, 1) == Latest(replies, 0);
  }

  // ---------------------------------------------------------------------------
  // Interactive delete-by-index loop (`delete_user`, `delete_application`).
  // ---------------------------------------------------------------------------

  /** The answer to the "Delete ..., continue?" confirmation and, when it is
      confirmed, the reply to the DELETE request. */
  datatype Attempt = Attempt(confirmed: bool, reply: Reply<()>)

  /** What `delete_one_user` and `delete_one_application` return: 'success',
      'fail', or `None` when the confirmation is declined. */
  datatype Deletion = Success | Fail | NoneReturned

  /** One call of `delete_one_*`. A transport failure exits with status 1. */
  function DeleteOne(a: Attempt): (r: Run<Deletion>)
    ensures r == Returns(NoneReturned) <==> !a.confirmed
    ensures r == Returns(Success) <==> a.confirmed && a.reply.Ok?
    ensures r == Returns(Fail) <==> a.confirmed && a.reply.Failed?
    ensures r == Exits(1) <==> a.confirmed && a.reply.NoReply?
  {
    if !a.confirmed then Returns(NoneReturned)
    else match a.reply
      case Ok(_) => Returns(Success)
      case Failed(_, _) => Returns(Fail)
      case NoReply => Exits(1)
  }

  /** The list shown when the loop stopped and how the process ended. */
  datatype Session<T> = Session(rows: seq<T>, end: Run<()>)

  /** The delete loop as a function of the typed indices and of the attempts,
      one attempt consumed per index in range. */
  function DeleteSession<T>(rows: seq<T>, indices: seq<int>, attempts: seq<Attempt>): Session<T>
    decreases |indices|
  {
    if indices == [] then Session(rows, Aborted)
    else
      var id := indices[0];
      if id == -1 then Session(rows, Exits(0))
      else if id < 1 || id > |rows| then DeleteSession(rows, indices[1..], attempts)
      else if attempts == [] then Session(rows, Aborted)
      else
        var result := DeleteOne(attempts[0]);
        if result == Returns(Fail) || result.Exits? then Session(rows, Exits(1))
        else DeleteSession(RemoveAt(rows, id - 1), indices[1..], attempts[1..])
  }

  /** Typing -1 quits with status 0 and the list as it is. */
  lemma MinusOneQuits<T>(rows: seq<T>, rest: seq<int>, attempts: seq<Attempt>)
    ensures DeleteSession(rows, [-1] + rest, attempts) == Session(rows, Exits(0))
  {
  }

  /** An index outside [1, |rows|] changes nothing and the loop asks again. */
  lemma OutOfRangeIsIgnored<T>(rows: seq<T>, id: int, rest: seq<int>, attempts: seq<Attempt>)
    requires id != -1 && (id < 1 || id > |rows|)
    ensures DeleteSession(rows, [id] + rest, attempts) == DeleteSession(rows, rest, attempts)
  {
    assert ([id] + rest)[1..] == rest;
  }

  /** A delete answered with a non-success status exits with status 1. */
  lemma FailedDeleteExits<T>(rows: seq<T>, id: int, rest: seq<int>, a: Attempt, more: seq<Attempt>)
    requires 1 <= id <= |rows| && a.confirmed && !a.reply.Ok?
    ensures DeleteSession(rows, [id] + rest, [a] + more) == Session(rows, Exits(1))
  {
  }

  /** A successful delete removes exactly row `id - 1`; a declined
      confirmation makes `delete_one_*` return `None`, which is not 'fail',
      so that row is removed from the list all the same. */
  lemma RowIsRemoved<T>(rows: seq<T>, id: int, rest: seq<int>, a: Attempt, more: seq<Attempt>)
    requires 1 <= id <= |rows| && (!a.confirmed || a.reply.Ok?)
    ensures DeleteSession(rows, [id] + rest, [a] + more)
         == DeleteSession(RemoveAt(rows, id - 1), rest, more)
  {
    assert ([id] + rest)[1..] == rest;
    assert ([a] + more)[1..] == more;
  }

  /** `a` is `b` with some elements left out, the rest in their order. */
  ghost predicate IsSubsequence<T>(a: seq<T>, b: seq<T>)
    decreases |b|
  {
    a == [] || (b != [] && ((a[0] == b[0] && IsSubsequence(a[1..], b[1..])) || IsSubsequence(a, b[1..])))
  }

  lemma {:induction false} SubsequenceRefl<T>(s: seq<T>)
    ensures IsSubsequence(s, s)
    decreases |s|
  {
    if s != [] {
      SubsequenceRefl(s[1..]);
    }
  }

  lemma {:induction false} SubsequenceTrans<T>(a: seq<T>, b: seq<T>, c: seq<T>)
    requires IsSubsequence(a, b) && IsSubsequence(b, c)
    ensures IsSubsequence(a, c)
    decreases |c|
  {
    if a != [] {
      assert b != [] && c != [];
      if b[0] == c[0] && IsSubsequence(b[1..], c[1..]) {
        if a[0] == b[0] && IsSubsequence(a[1..], b[1..]) {
          SubsequenceTrans(a[1..], b[1..], c[1..]);
        } else {
          SubsequenceTrans(a, b[1..], c[1..]);
        }
      } else {
        SubsequenceTrans(a, b, c[1..]);
      }
    }
  }

  /** Deleting one element keeps the others in their order. */
  lemma {:induction false} RemoveAtIsSubsequence<T>(s: seq<T>, i: nat)
    requires i < |s|
    ensures IsSubsequence(RemoveAt(s, i), s)
    decreases i
  {
    var r := RemoveAt(s, i);
    if i == 0 {
      assert r == s[1..];
      SubsequenceRefl(s[1..]);
    } else {
      assert r[0] == s[0];
      assert r[1..] == RemoveAt(s[1..], i - 1);
      RemoveAtIsSubsequence(s[1..], i - 1);
    }
  }

  /** What is left of a list after one element was removed is also what is
      left of the list itself. */
  lemma ShapeAfterRemoval<T>(left: seq<T>, rows: seq<T>, k: nat)
    requires k < |rows|
    requires IsSubsequence(left, RemoveAt(rows, k)) && multiset(left) <= multiset(RemoveAt(rows, k))
    ensures IsSubsequence(left, rows) && multiset(left) <= multiset(rows)
  {
    RemoveAtMultiset(rows, k);
    RemoveAtIsSubsequence(rows, k);
    SubsequenceTrans(left, RemoveAt(rows, k), rows);
  }

  /** The loop never finishes normally: it ends on -1 (status 0), on a failed
      delete (status 1), or when input runs out; and the rows left are the
      starting rows with some left out, the rest in their original order. */
  lemma {:induction false} DeleteSessionEnds<T>(rows: seq<T>, indices: seq<int>, attempts: seq<Attempt>)
    ensures var s := DeleteSession(rows, indices, attempts);
            (s.end == Exits(0) || s.end == Exits(1) || s.end == Aborted)
            && IsSubsequence(s.rows, rows) && multiset(s.rows) <= multiset(rows)
    decreases |indices|
  {
    var s := DeleteSession(rows, indices, attempts);
    if indices == [] || indices[0] == -1 {
      SubsequenceRefl(rows);
    } else {
      var id := indices[0];
      if id < 1 || id > |rows| {
        DeleteSessionEnds(rows, indices[1..], attempts);
      } else if attempts == [] {
        SubsequenceRefl(rows);
      } else {
        var result := DeleteOne(attempts[0]);
        if result == Returns(Fail) || result.Exits? {
          SubsequenceRefl(rows);
        } else {
          DeleteSessionEnds(RemoveAt(rows, id - 1), indices[1..], attempts[1..]);
          ShapeAfterRemoval(s.rows, rows, id - 1);
        }
      }
    }
  }

  /** The loop itself: `rows` is the list it mutates, `del rows[id - 1]`
      the in-place delete. */
  method DeleteLoop<T>(initial: seq<T>, indices: seq<int>, attempts: seq<Attempt>)
    returns (rows: seq<T>, end: Run<()>)
    ensures Session(rows, end) == DeleteSession(initial, indices, attempts)
  {
    rows := initial;
    var i, j := 0, 0;
    while true
      invariant 0 <= i <= |indices| && 0 <= j <= |attempts|
      invariant DeleteSession(rows, indices[i..], attempts[j..]) == DeleteSession(initial, indices, attempts)
      decreases |indices| - i
    {
      if i == |indices| {
        return rows, Aborted;
      }
      var id := indices[i];
      assert indices[i..][1..] == indices[i + 1..];
      i := i + 1;
      if id == -1 {
        return rows, Exits(0);
      }
      if id < 1 || id > |rows| {
        // "not in range": ask again
      } else {
        if j == |attempts| {
          return rows, Aborted;
        }
        var result := DeleteOne(attempts[j]);
        assert attempts[j..][1..] == attempts[j + 1..];
        j := j + 1;
        if result == Returns(Fail) || result.Exits? {
          return rows, Exits(1);
        }
        rows := rows[..id - 1] + rows[id..];
      }
    }
  }
}
