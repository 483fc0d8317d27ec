/**
 * The challenge tables of the backend and the service that keeps per-user progress rows up
 * to date after a study session or a streak computation. Both repositories are in-memory
 * sequences held by one object; `today` is passed in instead of `LocalDate.now()`.
 */
module ChallengeService {
  import opened Wrappers
  import Seqs

  /** Java's `int`. */
  type Int32 = x: int | -0x8000_0000 <= x < 0x8000_0000

  /** The value a Java `int` holds after an arithmetic result or a `(int)` cast: the low 32
      bits, read as a two's-complement number. */
  function ToInt32(x: int): (r: Int32)
    ensures (r - x) % 0x1_0000_0000 == 0
    ensures -0x8000_0000 <= x < 0x8000_0000 ==> r == x
  {
    (x + 0x8000_0000) % 0x1_0000_0000 - 0x8000_0000
  }

  /** Adding as Java `int`s, step by step, wraps to the same value as wrapping the exact sum. */
  lemma ToInt32Add(a: int, b: int)
    ensures ToInt32(ToInt32(a) + ToInt32(b)) == ToInt32(a + b)
  {
    var qa := (a + 0x8000_0000) / 0x1_0000_0000;
    var qb := (b + 0x8000_0000) / 0x1_0000_0000;
    assert ToInt32(a) == a - qa * 0x1_0000_0000;
    assert ToInt32(b) == b - qb * 0x1_0000_0000;
    ToInt32Shift(a + b, -(qa + qb));
  }

  lemma ToInt32Shift(x: int, q: int)
    ensures ToInt32(x + q * 0x1_0000_0000) == ToInt32(x)
  {
    var m := 0x1_0000_0000;
    var y := x + 0x8000_0000;
    assert y == (y / m) * m + y % m;
    assert y + q * m == (y / m + q) * m + y % m;
    assert (y + q * m) % m == y % m by {
      var r := y % m;
      assert 0 <= r < m;
      assert (y + q * m) / m == y / m + q;
    }
  }

  datatype ChallengeType = Streak | Hours | SessionCount

  /** A challenge; `targetMinutes` is a nullable `Integer` column. */
  datatype Challenge = Challenge(id: int, ctype: ChallengeType, targetValue: Int32, targetMinutes: Option<Int32>)

  /** One row of the user-challenge progress table. */
  datatype Progress = Progress(id: int, userId: int, challengeId: int, currentValue: Int32,
                               completed: bool, lastUpdated: int)

  /** The completion threshold of an HOURS challenge: `targetValue` when positive, otherwise
      `targetMinutes`, whose unboxing fails (None) when it is null. */
  function HoursThreshold(c: Challenge): Option<int> {
    if c.targetValue > 0 then Some(c.targetValue as int)
    else match c.targetMinutes
      case Some(m) => Some(m as int)
      case None => None
  }

  /** What one pass does to the row `p` of challenge `c`; None when the update throws. For
      HOURS `value` is the session's minutes, for STREAK the streak in days; SESSION_COUNT
      ignores it. */
  function Step(c: Challenge, p: Progress, value: int, today: int): Option<Progress> {
    match c.ctype
    case Hours =>
      var updated := ToInt32(p.currentValue + ToInt32(value));
      (match HoursThreshold(c)
       case None => None
       case Some(t) => Some(p.(currentValue := updated, completed := p.completed || updated >= t,
                                lastUpdated := today)))
    case SessionCount =>
      var updated := ToInt32(p.currentValue + 1);
      Some(p.(currentValue := updated, completed := p.completed || updated >= c.targetValue,
              lastUpdated := today))
    case Streak =>
      var updated := ToInt32(value);
      Some(p.(currentValue := updated, completed := p.completed || value >= c.targetValue,
              lastUpdated := today))
  }

  /** The challenge with identifier `id` (the last one, should there be several). */
  function ChallengeById(cs: seq<Challenge>, id: int): Option<Challenge> {
    if cs == [] then None
    else if cs[|cs| - 1].id == id then Some(cs[|cs| - 1])
    else ChallengeById(cs[..|cs| - 1], id)
  }

  /** Whether a pass over the challenges of type `ty` touches row `p`. */
  predicate Touches(cs: seq<Challenge>, ty: ChallengeType, userId: int, p: Progress) {
    p.userId == userId && ChallengeById(cs, p.challengeId).Some?
    && ChallengeById(cs, p.challengeId).value.ctype == ty
  }

  /** Row `p` after a pass over the challenges of type `ty` (a failing step leaves it as is;
      the whole pass is then rolled back anyway). */
  function PassRow(cs: seq<Challenge>, ty: ChallengeType, value: int, userId: int, today: int,
                   p: Progress): Progress
  {
    if Touches(cs, ty, userId, p) then
      Step(ChallengeById(cs, p.challengeId).value, p, value, today).GetOr(p)
    else p
  }

  /** A pass throws when some row it touches fails its step. */
  predicate PassFails(cs: seq<Challenge>, rows: seq<Progress>, ty: ChallengeType, value: int,
                      userId: int, today: int)
  {
    exists j :: 0 <= j < |rows| && Touches(cs, ty, userId, rows[j])
      && Step(ChallengeById(cs, rows[j].challengeId).value, rows[j], value, today).None?
  }

  function PassRows(cs: seq<Challenge>, rows: seq<Progress>, ty: ChallengeType, value: int,
                    userId: int, today: int): (r: seq<Progress>)
  {
    seq(|rows|, j requires 0 <= j < |rows| => PassRow(cs, ty, value, userId, today, rows[j]))
  }

  /** The progress table after `updateProgressFromSession`, or None when it throws (and the
      transaction leaves the table as it was). */
  function AfterSession(cs: seq<Challenge>, rows: seq<Progress>, minutes: int, userId: int,
                        today: int): Option<seq<Progress>>
  {
    if PassFails(cs, rows, Hours, minutes, userId, today) then None
    else Some(PassRows(cs, PassRows(cs, rows, Hours, minutes, userId, today), SessionCount, 0, userId, today))
  }

  /** The progress table after `updateProgressFromStreak` (which cannot throw). */
  function AfterStreak(cs: seq<Challenge>, rows: seq<Progress>, streakDays: Int32, userId: int,
                       today: int): seq<Progress>
  {
    PassRows(cs, rows, Streak, streakDays, userId, today)
  }

  predicate UniqueChallengeIds(cs: seq<Challenge>) {
    forall i, j :: 0 <= i < j < |cs| ==> cs[i].id != cs[j].id
  }

  /** At most one progress row per user and challenge, so that the repository's
      find-by-user-and-challenge has a single answer. */
  predicate OneRowPerUserAndChallenge(rows: seq<Progress>) {
    forall i, j :: 0 <= i < j < |rows| ==>
      rows[i].userId != rows[j].userId || rows[i].challengeId != rows[j].challengeId
  }

  lemma ChallengeByIdFinds(cs: seq<Challenge>, k: nat)
    requires UniqueChallengeIds(cs) && k < |cs|
    ensures ChallengeById(cs, cs[k].id) == Some(cs[k])
  {
    if k < |cs| - 1 {
      ChallengeByIdFinds(cs[..|cs| - 1], k);
    }
  }

  lemma ChallengeByIdPrefix(cs: seq<Challenge>, i: nat, id: int)
    requires i < |cs|
    ensures ChallengeById(cs[..i + 1], id)
            == if cs[i].id == id then Some(cs[i]) else ChallengeById(cs[..i], id)
  {
    assert cs[..i + 1][..i] == cs[..i];
  }

  lemma ChallengeByIdAbsent(cs: seq<Challenge>, id: int)
    requires forall k :: 0 <= k < |cs| ==> cs[k].id != id
    ensures ChallengeById(cs, id) == None
  {
  }

  // ---------------------------------------------------------------- the tables

  class ChallengeStore {
    var challenges: seq<Challenge>
    var progress: seq<Progress>
    var nextChallengeId: int
    var nextProgressId: int

    ghost predicate Valid()
      reads this
    {
      && UniqueChallengeIds(challenges)
      && OneRowPerUserAndChallenge(progress)
      && (forall i :: 0 <= i < |challenges| ==> challenges[i].id < nextChallengeId)
      && (forall i :: 0 <= i < |progress| ==> progress[i].id < nextProgressId)
      && (forall i :: 0 <= i < |progress| ==> progress[i].challengeId < nextChallengeId)
    }

    constructor ()
      ensures Valid() && challenges == [] && progress == []
    {
      challenges, progress := [], [];
      nextChallengeId, nextProgressId := 1, 1;
    }

    /** `createChallenge`: saves the challenge under a fresh identifier and adds exactly one
        progress row for `userId`, at 0 and not completed. */
    method CreateChallenge(userId: int, ctype: ChallengeType, targetValue: Int32,
                           targetMinutes: Option<Int32>, today: int) returns (saved: Challenge)
      requires Valid()
      modifies this
      ensures Valid()
      ensures saved == Challenge(old(nextChallengeId), ctype, targetValue, targetMinutes)
      ensures challenges == old(challenges) + [saved]
      ensures progress == old(progress) + [Progress(old(nextProgressId), userId, saved.id, 0, false, today)]
    {
      saved := Challenge(nextChallengeId, ctype, targetValue, targetMinutes);
      challenges := challenges + [saved];
      nextChallengeId := nextChallengeId + 1;
      var initial := Progress(nextProgressId, userId, saved.id, 0, false, today);
      progress := progress + [initial];
      nextProgressId := nextProgressId + 1;
    }

    /** `findByUserIdAndChallengeId`: the index of the row, or -1. */
    method FindRow(userId: int, challengeId: int) returns (k: int)
      ensures -1 <= k < |progress|
      ensures k >= 0 ==> progress[k].userId == userId && progress[k].challengeId == challengeId
      ensures k == -1 ==> forall j :: 0 <= j < |progress| ==>
                !(progress[j].userId == userId && progress[j].challengeId == challengeId)
    {
      k := 0;
      while k < |progress|
        invariant 0 <= k <= |progress|
        invariant forall j :: 0 <= j < k ==>
                    !(progress[j].userId == userId && progress[j].challengeId == challengeId)
      {
        if progress[k].userId == userId && progress[k].challengeId == challengeId {
          return;
        }
        k := k + 1;
      }
      k := -1;
    }

    /** One `findAll().stream().filter(type).forEach(findByUserIdAndChallengeId.ifPresent(..))`
        pass. When a step throws, the transaction rolls back: the table is restored. */
    method ApplyPass(ty: ChallengeType, value: int, userId: int, today: int) returns (ok: bool)
      requires Valid()
      modifies this
      ensures Valid()
      ensures challenges == old(challenges)
      ensures nextChallengeId == old(nextChallengeId) && nextProgressId == old(nextProgressId)
      ensures ok == !PassFails(challenges, old(progress), ty, value, userId, today)
      ensures ok ==> progress == PassRows(challenges, old(progress), ty, value, userId, today)
      ensures !ok ==> progress == old(progress)
    {
      var saved := progress;
      var rows := progress;
      var i := 0;
      while i < |challenges|
        invariant 0 <= i <= |challenges|
        invariant |rows| == |saved|
        invariant forall j :: 0 <= j < |rows| ==>
                    rows[j] == PassRow(challenges[..i], ty, value, userId, today, saved[j])
        invariant forall j :: 0 <= j < |rows| ==>
                    rows[j].id == saved[j].id && rows[j].userId == saved[j].userId
                    && rows[j].challengeId == saved[j].challengeId
        invariant !PassFails(challenges[..i], saved, ty, value, userId, today)
        invariant unchanged(this) && saved == progress
      {
        var c := challenges[i];
        var k := -1;
        if c.ctype == ty {
          k := FindRow(userId, c.id);
        }
        var next := if k >= 0 then Step(c, rows[k], value, today) else None;
        if k >= 0 && next.None? {
          PassFailsWitness(saved, rows, i, k, ty, value, userId, today);
          return false;
        }
        ghost var before := rows;
        if k >= 0 {
          rows := rows[k := next.value];
        }
        PassStepInvariant(saved, before, rows, i, k, ty, value, userId, today);
        i := i + 1;
      }
      assert challenges[..i] == challenges;
      SameKeysKeepValid(saved, rows, nextProgressId, nextChallengeId);
      progress := rows;
      ok := true;
    }

    /** Relates the loop state of `ApplyPass` before and after challenge `i`. */
    lemma PassStepInvariant(saved: seq<Progress>, before: seq<Progress>, after: seq<Progress>,
                            i: nat, k: int, ty: ChallengeType, value: int, userId: int, today: int)
      requires i < |challenges| && UniqueChallengeIds(challenges)
      requires OneRowPerUserAndChallenge(saved) && |before| == |saved|
      requires forall j :: 0 <= j < |before| ==>
                 before[j] == PassRow(challenges[..i], ty, value, userId, today, saved[j])
      requires forall j :: 0 <= j < |before| ==>
                 before[j].id == saved[j].id && before[j].userId == saved[j].userId
                 && before[j].challengeId == saved[j].challengeId
      requires !PassFails(challenges[..i], saved, ty, value, userId, today)
      requires -1 <= k < |before|
      requires k >= 0 ==> challenges[i].ctype == ty && before[k].userId == userId
                          && before[k].challengeId == challenges[i].id
                          && Step(challenges[i], before[k], value, today).Some?
                          && after == before[k := Step(challenges[i], before[k], value, today).value]
      requires k == -1 ==> after == before
      requires k == -1 && challenges[i].ctype == ty ==> forall j :: 0 <= j < |before| ==>
                 !(before[j].userId == userId && before[j].challengeId == challenges[i].id)
      ensures |after| == |saved|
      ensures forall j :: 0 <= j < |after| ==>
                after[j] == PassRow(challenges[..i + 1], ty, value, userId, today, saved[j])
      ensures forall j :: 0 <= j < |after| ==>
                after[j].id == saved[j].id && after[j].userId == saved[j].userId
                && after[j].challengeId == saved[j].challengeId
      ensures !PassFails(challenges[..i + 1], saved, ty, value, userId, today)
    {
      var c := challenges[i];
      forall j | 0 <= j < |saved|
        ensures ChallengeById(challenges[..i + 1], saved[j].challengeId)
                == if saved[j].challengeId == c.id then Some(c) else ChallengeById(challenges[..i], saved[j].challengeId)
      {
        ChallengeByIdPrefix(challenges, i, saved[j].challengeId);
      }
      assert forall m :: 0 <= m < i ==> challenges[..i][m].id != c.id;
      ChallengeByIdAbsent(challenges[..i], c.id);
      forall j | 0 <= j < |after|
        ensures after[j] == PassRow(challenges[..i + 1], ty, value, userId, today, saved[j])
        ensures after[j].id == saved[j].id && after[j].userId == saved[j].userId
                && after[j].challengeId == saved[j].challengeId
      {
        if saved[j].challengeId == c.id {
          assert !Touches(challenges[..i], ty, userId, saved[j]);
          assert before[j] == saved[j];
          if k == j {
          } else if k >= 0 {
            assert saved[j].userId != userId;
          }
        }
      }
    }

    lemma PassFailsWitness(saved: seq<Progress>, rows: seq<Progress>, i: nat, k: nat,
                           ty: ChallengeType, value: int, userId: int, today: int)
      requires i < |challenges| && UniqueChallengeIds(challenges) && k < |rows|
      requires |rows| == |saved|
      requires rows[k] == PassRow(challenges[..i], ty, value, userId, today, saved[k])
      requires rows[k].userId == saved[k].userId && rows[k].challengeId == saved[k].challengeId
      requires challenges[i].ctype == ty && rows[k].userId == userId
               && rows[k].challengeId == challenges[i].id
      requires Step(challenges[i], rows[k], value, today).None?
      ensures PassFails(challenges, saved, ty, value, userId, today)
    {
      var c := challenges[i];
      assert forall m :: 0 <= m < i ==> challenges[..i][m].id != c.id;
      ChallengeByIdAbsent(challenges[..i], c.id);
      assert rows[k] == saved[k];
      ChallengeByIdFinds(challenges, i);
      assert Touches(challenges, ty, userId, saved[k]);
    }

    /** `updateProgressFromSession`: the HOURS pass, then the SESSION_COUNT pass, as one
        transaction. */
    method UpdateProgressFromSession(minutes: int, userId: int, today: int) returns (ok: bool)
      requires Valid()
      modifies this
      ensures Valid()
      ensures challenges == old(challenges)
      ensures AfterSession(challenges, old(progress), minutes, userId, today)
              == if ok then Some(progress) else None
      ensures !ok ==> progress == old(progress)
    {
      ok := ApplyPass(Hours, minutes, userId, today);
      if ok {
        var counted := ApplyPass(SessionCount, 0, userId, today);
      }
    }

    /** `updateProgressFromStreak`: every STREAK row of the user is overwritten. */
    method UpdateProgressFromStreak(streakDays: Int32, userId: int, today: int)
      requires Valid()
      modifies this
      ensures Valid()
      ensures challenges == old(challenges)
      ensures progress == AfterStreak(challenges, old(progress), streakDays, userId, today)
    {
      var ok := ApplyPass(Streak, streakDays, userId, today);
    }

    /** `deleteChallengeAndProgress`: removes the challenge's rows one by one, then the
        challenge itself; an unknown identifier changes nothing. */
    method DeleteChallengeAndProgress(challengeId: int)
      requires Valid()
      modifies this
      ensures Valid()
      ensures progress == Seqs.Filter(old(progress), (p: Progress) => p.challengeId != challengeId)
      ensures challenges == Seqs.Filter(old(challenges), (c: Challenge) => c.id != challengeId)
      ensures nextChallengeId == old(nextChallengeId) && nextProgressId == old(nextProgressId)
    {
      var kept := RowsOutside(progress, challengeId);
      DeleteKeepsValid(challenges, progress, challengeId, nextChallengeId, nextProgressId);
      progress := kept;
      challenges := Seqs.Filter(challenges, (c: Challenge) => c.id != challengeId);
    }
  }

  /** The rows that survive deleting challenge `challengeId`, collected one row at a time. */
  method RowsOutside(rows: seq<Progress>, challengeId: int) returns (kept: seq<Progress>)
    ensures kept == Seqs.Filter(rows, (p: Progress) => p.challengeId != challengeId)
  {
    var keep := (p: Progress) => p.challengeId != challengeId;
    kept := [];
    var i := 0;
    while i < |rows|
      invariant 0 <= i <= |rows|
      invariant kept == Seqs.Filter(rows[..i], keep)
    {
      Seqs.FilterConcat(rows[..i], [rows[i]], keep);
      assert rows[..i + 1] == rows[..i] + [rows[i]];
      if keep(rows[i]) {
        kept := kept + [rows[i]];
      }
      i := i + 1;
    }
    assert rows[..i] == rows;
  }

  /** Removing a challenge and its rows keeps the tables' invariants. */
  lemma DeleteKeepsValid(cs: seq<Challenge>, rows: seq<Progress>, challengeId: int, nc: int, np: int)
    requires UniqueChallengeIds(cs) && OneRowPerUserAndChallenge(rows)
    requires forall i :: 0 <= i < |cs| ==> cs[i].id < nc
    requires forall i :: 0 <= i < |rows| ==> rows[i].id < np && rows[i].challengeId < nc
    ensures var cs' := Seqs.Filter(cs, (c: Challenge) => c.id != challengeId);
            var rows' := Seqs.Filter(rows, (p: Progress) => p.challengeId != challengeId);
            && UniqueChallengeIds(cs') && OneRowPerUserAndChallenge(rows')
            && (forall i :: 0 <= i < |cs'| ==> cs'[i].id < nc)
            && (forall i :: 0 <= i < |rows'| ==> rows'[i].id < np && rows'[i].challengeId < nc)
  {
    var keep := (p: Progress) => p.challengeId != challengeId;
    var keepC := (c: Challenge) => c.id != challengeId;
    FilterKeepsOneRowPerUserAndChallenge(rows, keep);
    FilterKeepsUniqueChallengeIds(cs, keepC);
    FilterKeepsBounds(rows, keep, np, nc);
    FilterKeepsIdBound(cs, keepC, nc);
  }

  /** Rows rewritten without touching their identifiers, users or challenges keep the
      table's invariants. */
  lemma SameKeysKeepValid(saved: seq<Progress>, rows: seq<Progress>, np: int, nc: int)
    requires OneRowPerUserAndChallenge(saved) && |rows| == |saved|
    requires forall j :: 0 <= j < |saved| ==> saved[j].id < np && saved[j].challengeId < nc
    requires forall j :: 0 <= j < |rows| ==>
               rows[j].id == saved[j].id && rows[j].userId == saved[j].userId
               && rows[j].challengeId == saved[j].challengeId
    ensures OneRowPerUserAndChallenge(rows)
    ensures forall j :: 0 <= j < |rows| ==> rows[j].id < np && rows[j].challengeId < nc
  {
  }

  lemma FilterKeepsBounds(rows: seq<Progress>, p: Progress -> bool, np: int, nc: int)
    requires forall i :: 0 <= i < |rows| ==> rows[i].id < np && rows[i].challengeId < nc
    ensures forall i :: 0 <= i < |Seqs.Filter(rows, p)| ==>
              Seqs.Filter(rows, p)[i].id < np && Seqs.Filter(rows, p)[i].challengeId < nc
  {
    var r := Seqs.Filter(rows, p);
    forall i | 0 <= i < |r|
      ensures r[i].id < np && r[i].challengeId < nc
    {
      var m :| 0 <= m < |rows| && rows[m] == r[i];
    }
  }

  lemma FilterKeepsIdBound(cs: seq<Challenge>, p: Challenge -> bool, nc: int)
    requires forall i :: 0 <= i < |cs| ==> cs[i].id < nc
    ensures forall i :: 0 <= i < |Seqs.Filter(cs, p)| ==> Seqs.Filter(cs, p)[i].id < nc
  {
    var r := Seqs.Filter(cs, p);
    forall i | 0 <= i < |r|
      ensures r[i].id < nc
    {
      var m :| 0 <= m < |cs| && cs[m] == r[i];
    }
  }

  lemma {:induction false} FilterKeepsOneRowPerUserAndChallenge(rows: seq<Progress>, p: Progress -> bool)
    requires OneRowPerUserAndChallenge(rows)
    ensures OneRowPerUserAndChallenge(Seqs.Filter(rows, p))
  {
    if rows != [] {
      FilterKeepsOneRowPerUserAndChallenge(rows[1..], p);
      var rest := Seqs.Filter(rows[1..], p);
      forall k | 0 <= k < |rest|
        ensures rest[k].userId != rows[0].userId || rest[k].challengeId != rows[0].challengeId
      {
        var m :| 0 <= m < |rows[1..]| && rows[1..][m] == rest[k];
        assert rows[m + 1] == rest[k];
      }
    }
  }

  lemma {:induction false} FilterKeepsUniqueChallengeIds(cs: seq<Challenge>, p: Challenge -> bool)
    requires UniqueChallengeIds(cs)
    ensures UniqueChallengeIds(Seqs.Filter(cs, p))
  {
    if cs != [] {
      FilterKeepsUniqueChallengeIds(cs[1..], p);
      var rest := Seqs.Filter(cs[1..], p);
      forall k | 0 <= k < |rest|
        ensures rest[k].id != cs[0].id
      {
        var m :| 0 <= m < |cs[1..]| && cs[1..][m] == rest[k];
        assert cs[m + 1] == rest[k];
      }
    }
  }

  // ---------------------------------------------------------------- properties of the passes

  /** Row `j` of the table after a session. An HOURS row of the user gains the minutes (as
      Java `int`s, so exactly the minutes while nothing overflows) and is completed once it
      reaches its threshold; a SESSION_COUNT row gains 1 whatever the minutes; every other
      row is unchanged. */
  lemma SessionRowEffect(cs: seq<Challenge>, rows: seq<Progress>, minutes: int, userId: int,
                         today: int, j: nat)
    requires j < |rows| && AfterSession(cs, rows, minutes, userId, today).Some?
    ensures var r := AfterSession(cs, rows, minutes, userId, today).value;
      && |r| == |rows|
      && r[j].id == rows[j].id && r[j].userId == rows[j].userId
      && r[j].challengeId == rows[j].challengeId
      && (Touches(cs, Hours, userId, rows[j]) ==>
            var c := ChallengeById(cs, rows[j].challengeId).value;
            && HoursThreshold(c).Some?
            && r[j].currentValue == ToInt32(rows[j].currentValue + ToInt32(minutes))
            && ((-0x8000_0000 <= minutes < 0x8000_0000
                 && -0x8000_0000 <= rows[j].currentValue + minutes < 0x8000_0000)
                ==> r[j].currentValue == rows[j].currentValue + minutes)
            && r[j].completed == (rows[j].completed || r[j].currentValue >= HoursThreshold(c).value)
            && r[j].lastUpdated == today)
      && (Touches(cs, SessionCount, userId, rows[j]) ==>
            var c := ChallengeById(cs, rows[j].challengeId).value;
            && r[j].currentValue == ToInt32(rows[j].currentValue + 1)
            && (rows[j].currentValue < 0x7FFF_FFFF ==> r[j].currentValue == rows[j].currentValue + 1)
            && r[j].completed == (rows[j].completed || r[j].currentValue >= c.targetValue)
            && r[j].lastUpdated == today)
      && ((!Touches(cs, Hours, userId, rows[j]) && !Touches(cs, SessionCount, userId, rows[j]))
          ==> r[j] == rows[j])
  {
    var mid := PassRows(cs, rows, Hours, minutes, userId, today);
    assert mid[j] == PassRow(cs, Hours, minutes, userId, today, rows[j]);
    if Touches(cs, Hours, userId, rows[j]) {
      var c := ChallengeById(cs, rows[j].challengeId).value;
      assert !PassFails(cs, rows, Hours, minutes, userId, today);
      assert Step(c, rows[j], minutes, today).Some?;
    }
  }

  /** The update throws exactly when the user has a row for an HOURS challenge whose
      `targetValue` is not positive and whose `targetMinutes` is null. */
  lemma SessionFailsExactly(cs: seq<Challenge>, rows: seq<Progress>, minutes: int, userId: int,
                            today: int)
    ensures AfterSession(cs, rows, minutes, userId, today).None? <==>
      exists j :: 0 <= j < |rows| && Touches(cs, Hours, userId, rows[j])
        && ChallengeById(cs, rows[j].challengeId).value.targetValue <= 0
        && ChallengeById(cs, rows[j].challengeId).value.targetMinutes.None?
  {
    if AfterSession(cs, rows, minutes, userId, today).None? {
      var j :| 0 <= j < |rows| && Touches(cs, Hours, userId, rows[j])
        && Step(ChallengeById(cs, rows[j].challengeId).value, rows[j], minutes, today).None?;
      assert ChallengeById(cs, rows[j].challengeId).value.targetMinutes.None?;
    }
  }

  /** The count of a SESSION_COUNT row does not depend on the session's length. */
  lemma SessionCountIgnoresMinutes(cs: seq<Challenge>, rows: seq<Progress>, m1: int, m2: int,
                                   userId: int, today: int, j: nat)
    requires j < |rows| && Touches(cs, SessionCount, userId, rows[j])
    requires AfterSession(cs, rows, m1, userId, today).Some?
    requires AfterSession(cs, rows, m2, userId, today).Some?
    ensures AfterSession(cs, rows, m1, userId, today).value[j]
            == AfterSession(cs, rows, m2, userId, today).value[j]
  {
    SessionRowEffect(cs, rows, m1, userId, today, j);
    SessionRowEffect(cs, rows, m2, userId, today, j);
  }

  /** A streak update sets every STREAK row of the user to the streak, whatever it held, and
      leaves every other row as it was. */
  lemma StreakRowEffect(cs: seq<Challenge>, rows: seq<Progress>, streakDays: Int32, userId: int,
                        today: int, j: nat)
    requires j < |rows|
    ensures var r := AfterStreak(cs, rows, streakDays, userId, today);
      && |r| == |rows|
      && (Touches(cs, Streak, userId, rows[j]) ==>
            && r[j] == rows[j].(currentValue := streakDays, lastUpdated := today,
                                completed := rows[j].completed
                                  || streakDays >= ChallengeById(cs, rows[j].challengeId).value.targetValue))
      && (!Touches(cs, Streak, userId, rows[j]) ==> r[j] == rows[j])
  {
  }

  /** Neither update ever clears `completed`, even when the new value is lower. */
  lemma CompletedIsNeverCleared(cs: seq<Challenge>, rows: seq<Progress>, minutes: int,
                                streakDays: Int32, userId: int, today: int, j: nat)
    requires j < |rows| && rows[j].completed
    ensures AfterStreak(cs, rows, streakDays, userId, today)[j].completed
    ensures AfterSession(cs, rows, minutes, userId, today).Some? ==>
              AfterSession(cs, rows, minutes, userId, today).value[j].completed
  {
    StreakRowEffect(cs, rows, streakDays, userId, today, j);
    if AfterSession(cs, rows, minutes, userId, today).Some? {
      SessionRowEffect(cs, rows, minutes, userId, today, j);
    }
  }

  /** A broken streak (0 days) resets a completed STREAK row to 0 and keeps it completed. */
  lemma BrokenStreakKeepsCompletion(cs: seq<Challenge>, rows: seq<Progress>, userId: int,
                                    today: int, j: nat)
    requires j < |rows| && rows[j].completed && Touches(cs, Streak, userId, rows[j])
    ensures AfterStreak(cs, rows, 0, userId, today)[j].currentValue == 0
    ensures AfterStreak(cs, rows, 0, userId, today)[j].completed
  {
    StreakRowEffect(cs, rows, 0, userId, today, j);
  }
}
