/** The contact form's submissions table: a one-hour rate limit per IP
    address with a minutes-remaining message, insert on acceptance, the
    newest-first listing and marking a submission read. */
module Submissions {
  import opened Wrappers
  import opened Text
  import opened ConvexTable

  /** One hour in milliseconds. */
  const RateLimitMs: int := 60 * 60 * 1000
  const MsPerMinute: int := 60000

  datatype Submission = Submission(
    name: string, email: string, subject: string, message: string,
    ipAddress: string, timestamp: int, read: bool)

  /** The arguments of `submitContactForm`. */
  datatype ContactArgs = ContactArgs(name: string, email: string, subject: string, message: string, ipAddress: string)

  /** The record an accepted call stores: the arguments, the time, unread. */
  function NewSubmission(args: ContactArgs, now: int): Submission {
    Submission(args.name, args.email, args.subject, args.message, args.ipAddress, now, false)
  }

  /** The `by_ip_and_timestamp` range: the same address, and a timestamp
      strictly after one hour before `now`. */
  predicate Recent(s: Submission, ip: string, now: int) {
    s.ipAddress == ip && s.timestamp > now - RateLimitMs
  }

  /** The timestamp of the last row of that range, which the index orders by
      timestamp: the greatest timestamp among the recent submissions, or none. */
  function LatestRecent(rows: seq<Row<Submission>>, ip: string, now: int): (r: Option<int>)
    ensures r.None? <==> forall i :: 0 <= i < |rows| ==> !Recent(rows[i].doc, ip, now)
    ensures r.Some? ==> exists i :: 0 <= i < |rows| && Recent(rows[i].doc, ip, now) && rows[i].doc.timestamp == r.value
    ensures r.Some? ==> forall i :: 0 <= i < |rows| && Recent(rows[i].doc, ip, now) ==> rows[i].doc.timestamp <= r.value
    decreases |rows|
  {
    if rows == [] then None
    else
      var rest := LatestRecent(rows[1..], ip, now);
      assert forall i :: 0 < i < |rows| ==> rows[i] == rows[1..][i - 1];
      if !Recent(rows[0].doc, ip, now) then rest
      else if rest.Some? && rest.value > rows[0].doc.timestamp then rest
      else Some(rows[0].doc.timestamp)
  }

  /** `Math.ceil(a / b)` for integers. */
  function CeilDiv(a: int, b: int): (q: int)
    requires b > 0
    ensures (q - 1) * b < a <= q * b
  {
    var f := (-a) / b;
    assert f * b <= -a < f * b + b;
    -f
  }

  /** The minutes until the last recent submission leaves the window. */
  function MinutesRemaining(now: int, last: int): int {
    CeilDiv(RateLimitMs - (now - last), MsPerMinute)
  }

  /** A submission inside the window leaves at least one minute to wait, and
      at most sixty when it is not from the future. */
  lemma MinutesInRange(now: int, last: int)
    requires last > now - RateLimitMs
    ensures MinutesRemaining(now, last) >= 1
    ensures last <= now ==> MinutesRemaining(now, last) <= 60
  {
  }

  const RateLimitPrefix := "Rate limit exceeded. Please try again in "

  /** The error text, with "minute" for exactly one and "minutes" otherwise. */
  function RateLimitMessage(minutes: nat): string {
    RateLimitPrefix + NatToString(minutes) + " minute" + (if minutes == 1 then "" else "s") + "."
  }

  /** The message names its minutes: different minutes give different messages,
      and the singular appears only for one. */
  lemma RateLimitMessageNames(m: nat, n: nat)
    ensures RateLimitMessage(m) == RateLimitMessage(n) ==> m == n
    ensures RateLimitMessage(m)[|RateLimitMessage(m)| - 2] == 'e' <==> m == 1
  {
    var a := RateLimitMessage(m);
    var b := RateLimitMessage(n);
    var p := |RateLimitPrefix|;
    assert a[|a| - 2] == (if m == 1 then 'e' else 's');
    if a == b && m != 1 && n != 1 {
      var dm := NatToString(m);
      var dn := NatToString(n);
      assert |dm| == |a| - p - 9 && |dn| == |b| - p - 9;
      assert dm == a[p..p + |dm|];
      assert dn == b[p..p + |dn|];
      DecimalRoundTrip(m);
      DecimalRoundTrip(n);
    }
  }

  /** The decision of `submitContactForm`: the rate-limit error, or none. */
  function RateLimitError(rows: seq<Row<Submission>>, ip: string, now: int): (r: Option<string>)
    ensures r.Some? <==> exists i :: 0 <= i < |rows| && Recent(rows[i].doc, ip, now)
  {
    match LatestRecent(rows, ip, now)
    case None => None
    case Some(last) =>
      MinutesInRange(now, last);
      Some(RateLimitMessage(MinutesRemaining(now, last)))
  }

  /** Only the caller's own address counts: adding a submission from another
      address, or one an hour old or older, never changes the decision. */
  lemma {:induction false} OtherSubmissionsNeverBlock(rows: seq<Row<Submission>>, row: Row<Submission>, ip: string, now: int)
    requires !Recent(row.doc, ip, now)
    ensures LatestRecent(rows + [row], ip, now) == LatestRecent(rows, ip, now)
    decreases |rows|
  {
    if rows != [] {
      assert (rows + [row])[1..] == rows[1..] + [row];
      OtherSubmissionsNeverBlock(rows[1..], row, ip, now);
    }
  }

  /** A stored submission blocks its address for exactly one hour: until
      `now` reaches its timestamp plus 3600000, and no longer. */
  lemma WindowIsOneHour(rows: seq<Row<Submission>>, id: nat, s: Submission, now: int)
    requires forall i :: 0 <= i < |rows| ==> rows[i].doc.ipAddress != s.ipAddress
    ensures RateLimitError(rows + [Row(id, s)], s.ipAddress, now).Some? <==> now < s.timestamp + RateLimitMs
  {
    var all := rows + [Row(id, s)];
    assert all[|rows|] == Row(id, s);
    assert forall i :: 0 <= i < |rows| ==> all[i] == rows[i];
  }

  /** Right after an accepted submission at `t`, the same address is told to
      wait the whole remainder of the hour, if no stored timestamp is later than `t`. */
  lemma {:induction false} AcceptedThenLimited(rows: seq<Row<Submission>>, id: nat, s: Submission, now: int)
    requires forall i :: 0 <= i < |rows| ==> rows[i].doc.timestamp <= s.timestamp
    requires now - RateLimitMs < s.timestamp
    ensures LatestRecent(rows + [Row(id, s)], s.ipAddress, now) == Some(s.timestamp)
    decreases |rows|
  {
    var all := rows + [Row(id, s)];
    if rows == [] {
      assert all == [Row(id, s)];
    } else {
      assert all[1..] == rows[1..] + [Row(id, s)];
      AcceptedThenLimited(rows[1..], id, s, now);
    }
  }

  datatype Outcome = Accepted(submissionId: nat) | RateLimited(error: string)

  /** `submitContactForm` at time `now`: rejected, with the table untouched,
      when the address has a recent submission; otherwise exactly one record
      is inserted and nothing else changes. */
  method SubmitContactForm(db: Table<Submission>, args: ContactArgs, now: int) returns (r: Outcome)
    requires db.Valid()
    modifies db
    ensures db.Valid()
    ensures r.RateLimited? <==> exists i :: 0 <= i < |old(db.rows)| && Recent(old(db.rows)[i].doc, args.ipAddress, now)
    ensures r.RateLimited? ==> RateLimitError(old(db.rows), args.ipAddress, now) == Some(r.error)
    ensures r.RateLimited? ==> db.rows == old(db.rows) && db.nextId == old(db.nextId)
    ensures r.Accepted? ==> r.submissionId == old(db.nextId)
    ensures r.Accepted? ==> db.rows == old(db.rows) + [Row(r.submissionId, NewSubmission(args, now))]
  {
    var error := RateLimitError(db.rows, args.ipAddress, now);
    if error.Some? {
      r := RateLimited(error.value);
    } else {
      var id := db.Insert(NewSubmission(args, now));
      r := Accepted(id);
    }
  }

  predicate Unread(row: Row<Submission>) {
    !row.doc.read
  }

  predicate AnyRow(row: Row<Submission>) {
    true
  }

  /** The submissions `getSubmissions` lists: the unread ones when
      `onlyUnread` is true, all of them otherwise. */
  function Qualifying(onlyUnread: Option<bool>): Row<Submission> -> bool {
    if onlyUnread == Some(true) then Unread else AnyRow
  }

  /** `getSubmissions`: newest first, unread ones only when asked, at most
      `limit ?? 50`: the first that many of the qualifying submissions, newest first. */
  function GetSubmissions(rows: seq<Row<Submission>>, limit: Option<nat>, onlyUnread: Option<bool>): (r: seq<Row<Submission>>)
    ensures |r| <= LimitOr50(limit)
    ensures onlyUnread == Some(true) ==> forall i :: 0 <= i < |r| ==> !r[i].doc.read
    ensures forall i :: 0 <= i < |r| ==> r[i] in rows
    ensures var m := Matching(Newest(rows), Qualifying(onlyUnread));
            r == m[..if LimitOr50(limit) < |m| then LimitOr50(limit) else |m|]
  {
    Select(Newest(rows), Qualifying(onlyUnread), LimitOr50(limit))
  }

  /** The listing is newest first, and when no more submissions qualify than
      the limit, it holds all of them. */
  lemma GetSubmissionsNewestFirst(rows: seq<Row<Submission>>, limit: Option<nat>, onlyUnread: Option<bool>)
    requires IdsIncreasing(rows)
    ensures IdsDecreasing(GetSubmissions(rows, limit, onlyUnread))
    ensures |Matching(Newest(rows), Qualifying(onlyUnread))| <= LimitOr50(limit) ==>
              forall i :: 0 <= i < |rows| && (onlyUnread == Some(true) ==> !rows[i].doc.read) ==>
                rows[i] in GetSubmissions(rows, limit, onlyUnread)
  {
    var keep := Qualifying(onlyUnread);
    var newest := Newest(rows);
    SelectNewestDecreasing(rows, keep, LimitOr50(limit));
    SelectOrderAndCompleteness(newest, keep, LimitOr50(limit));
    forall i | 0 <= i < |rows| && (onlyUnread == Some(true) ==> !rows[i].doc.read)
      ensures |Matching(newest, keep)| <= LimitOr50(limit) ==> rows[i] in GetSubmissions(rows, limit, onlyUnread)
    {
      assert newest[|rows| - 1 - i] == rows[i];
      assert keep(newest[|rows| - 1 - i]);
    }
  }

  function MarkRead(s: Submission): Submission {
    s.(read := true)
  }

  /** `markAsRead`: that submission becomes read, nothing else changes; a
      missing id makes the patch throw and leaves the table as it was. */
  method MarkAsRead(db: Table<Submission>, id: nat) returns (found: bool)
    requires db.Valid()
    modifies db
    ensures db.Valid()
    ensures found <==> Lookup(old(db.rows), id).Some?
    ensures db.rows == Replaced(old(db.rows), id, MarkRead) && db.nextId == old(db.nextId)
  {
    found := db.Update(id, MarkRead);
  }

  /** After `markAsRead` the submission is read and otherwise the same, every
      other submission is untouched, and marking it again changes nothing. */
  lemma MarkAsReadEffect(rows: seq<Row<Submission>>, id: nat, other: nat)
    ensures Lookup(Replaced(rows, id, MarkRead), id) ==
              (match Lookup(rows, id) case None => None case Some(s) => Some(s.(read := true)))
    ensures other != id ==> Lookup(Replaced(rows, id, MarkRead), other) == Lookup(rows, other)
    ensures Replaced(Replaced(rows, id, MarkRead), id, MarkRead) == Replaced(rows, id, MarkRead)
  {
    LookupReplaced(rows, id, MarkRead, other);
    ReplacedIdempotent(rows, id, MarkRead);
  }
}
