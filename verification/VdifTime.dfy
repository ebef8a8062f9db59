/**
  VDIF time to POSIX nanoseconds. VDIF counts every elapsed second since a half-year
  epoch, leap seconds included; POSIX time has no name for a leap second, which is folded
  onto the second before it.
 */
module VdifTime {
  import opened Units

  /** POSIX time of each VDIF epoch, half-yearly from 2000-01-01. */
  function EpochUnixSec(epoch: nat): nat
    requires epoch < 64
  {
    if epoch == 0 then 946684800 else if epoch == 1 then 962409600 else if epoch == 2 then 978307200 else
    if epoch == 3 then 993945600 else if epoch == 4 then 1009843200 else if epoch == 5 then 1025481600 else
    if epoch == 6 then 1041379200 else if epoch == 7 then 1057017600 else if epoch == 8 then 1072915200 else
    if epoch == 9 then 1088640000 else if epoch == 10 then 1104537600 else if epoch == 11 then 1120176000 else
    if epoch == 12 then 1136073600 else if epoch == 13 then 1151712000 else if epoch == 14 then 1167609600 else
    if epoch == 15 then 1183248000 else if epoch == 16 then 1199145600 else if epoch == 17 then 1214870400 else
    if epoch == 18 then 1230768000 else if epoch == 19 then 1246406400 else if epoch == 20 then 1262304000 else
    if epoch == 21 then 1277942400 else if epoch == 22 then 1293840000 else if epoch == 23 then 1309478400 else
    if epoch == 24 then 1325376000 else if epoch == 25 then 1341100800 else if epoch == 26 then 1356998400 else
    if epoch == 27 then 1372636800 else if epoch == 28 then 1388534400 else if epoch == 29 then 1404172800 else
    if epoch == 30 then 1420070400 else if epoch == 31 then 1435708800 else if epoch == 32 then 1451606400 else
    if epoch == 33 then 1467331200 else if epoch == 34 then 1483228800 else if epoch == 35 then 1498867200 else
    if epoch == 36 then 1514764800 else if epoch == 37 then 1530403200 else if epoch == 38 then 1546300800 else
    if epoch == 39 then 1561939200 else if epoch == 40 then 1577836800 else if epoch == 41 then 1593561600 else
    if epoch == 42 then 1609459200 else if epoch == 43 then 1625097600 else if epoch == 44 then 1640995200 else
    if epoch == 45 then 1656633600 else if epoch == 46 then 1672531200 else if epoch == 47 then 1688169600 else
    if epoch == 48 then 1704067200 else if epoch == 49 then 1719792000 else if epoch == 50 then 1735689600 else
    if epoch == 51 then 1751328000 else if epoch == 52 then 1767225600 else if epoch == 53 then 1782864000 else
    if epoch == 54 then 1798761600 else if epoch == 55 then 1814400000 else if epoch == 56 then 1830297600 else
    if epoch == 57 then 1846022400 else if epoch == 58 then 1861920000 else if epoch == 59 then 1877558400 else
    if epoch == 60 then 1893456000 else if epoch == 61 then 1909094400 else if epoch == 62 then 1924992000 else
    1940630400
  }

  const FIRST_EPOCH := 946684800

  /** POSIX time of the midnight after each leap second. */
  function LeapEffective(k: nat): nat
    requires k < 5
  {
    if k == 0 then 1136073600 else if k == 1 then 1230768000 else if k == 2 then 1341100800
    else if k == 3 then 1435708800 else 1483228800
  }

  /** The epoch that begins with the midnight after each leap second: 2006, 2009, mid-2012, mid-2015 and 2017. */
  function LeapEpoch(k: nat): nat
    requires k < 5
  {
    if k == 0 then 12 else if k == 1 then 18 else if k == 2 then 25 else if k == 3 then 31 else 34
  }

  /** Every leap second ends a half year, in the years of the five since 2000. */
  lemma LeapsAreAtEpochs(k: nat)
    requires k < 5
    ensures LeapEffective(k) == EpochUnixSec(LeapEpoch(k))
  {
  }

  datatype Result = Ok(ns: nat) | OutOfRange

  // ------------------------------------------------------------------ the conversion

  /** The leap-second loop: the POSIX second, from the leap entries k onwards. */
  function ScanLeaps(epochSec: nat, seconds: nat, k: nat, elapsed: nat): int
    requires k <= 5
    decreases 5 - k
  {
    if k == 5 then epochSec + seconds - elapsed
    else if LeapEffective(k) <= epochSec then ScanLeaps(epochSec, seconds, k + 1, elapsed)
    else
      var leap := LeapEffective(k) - epochSec + elapsed;
      if seconds < leap then epochSec + seconds - elapsed
      else if seconds == leap then LeapEffective(k) - 1
      else ScanLeaps(epochSec, seconds, k + 1, elapsed + 1)
  }

  method VdifToTimestampNs(epoch: nat, seconds: nat, frame: nat) returns (r: Result)
    ensures r == Timestamp(epoch, seconds, frame)
  {
    if epoch >= 64 { return OutOfRange; }
    EpochBound(epoch);
    var epochSec := EpochUnixSec(epoch);
    var elapsed := 0;
    var k := 0;
    ghost var result := ScanLeaps(epochSec, seconds, 0, 0);
    while k < 5
      invariant k <= 5 && elapsed <= k && ScanLeaps(epochSec, seconds, k, elapsed) == result
    {
      var leapEffective := LeapEffective(k);
      if leapEffective <= epochSec {
        k := k + 1;
        continue;
      }
      var leap := leapEffective - epochSec + elapsed;
      if seconds < leap { break; }
      if seconds == leap {
        return Ok((leapEffective - 1) * NS_PER_SEC + frame * FRAME_NS);
      }
      elapsed := elapsed + 1;
      k := k + 1;
    }
    var sec := epochSec + seconds - elapsed;
    return Ok(sec * NS_PER_SEC + frame * FRAME_NS);
  }

  function Timestamp(epoch: nat, seconds: nat, frame: nat): Result {
    if epoch >= 64 then OutOfRange
    else
      EpochBound(epoch);
      ScanAtLeast(EpochUnixSec(epoch), seconds, 0, 0);
      Ok(ScanLeaps(EpochUnixSec(epoch), seconds, 0, 0) * NS_PER_SEC + frame * FRAME_NS)
  }

  /** Days in the half year that starts at an epoch; every fourth year is a leap year until 2100. */
  function HalfYearDays(epoch: nat): nat {
    if epoch % 2 == 1 then 184 else if (2000 + epoch / 2) % 4 == 0 then 182 else 181
  }

  ghost predicate FollowsCalendar(epoch: nat)
    requires epoch < 63
  {
    EpochUnixSec(epoch + 1) == EpochUnixSec(epoch) + 86400 * HalfYearDays(epoch)
  }

  lemma FirstFifth(epoch: nat)
    requires epoch < 13
    ensures FollowsCalendar(epoch)
  {
  }

  lemma SecondFifth(epoch: nat)
    requires 13 <= epoch < 26
    ensures FollowsCalendar(epoch)
  {
  }

  lemma ThirdFifth(epoch: nat)
    requires 26 <= epoch < 39
    ensures FollowsCalendar(epoch)
  {
  }

  lemma FourthFifth(epoch: nat)
    requires 39 <= epoch < 52
    ensures FollowsCalendar(epoch)
  {
  }

  lemma LastFifth(epoch: nat)
    requires 52 <= epoch < 63
    ensures FollowsCalendar(epoch)
  {
  }

  /** The table of epochs is the calendar. */
  lemma TableFollowsCalendar(epoch: nat)
    requires epoch < 63
    ensures EpochUnixSec(0) == FIRST_EPOCH
    ensures EpochUnixSec(epoch + 1) == EpochUnixSec(epoch) + 86400 * HalfYearDays(epoch)
  {
    assert EpochUnixSec(0) == FIRST_EPOCH;
    hide EpochUnixSec, HalfYearDays;
    if epoch < 13 {
      FirstFifth(epoch);
    } else if epoch < 26 {
      SecondFifth(epoch);
    } else if epoch < 39 {
      ThirdFifth(epoch);
    } else if epoch < 52 {
      FourthFifth(epoch);
    } else {
      LastFifth(epoch);
    }
  }

  lemma EpochBound(epoch: nat)
    requires epoch < 64
    ensures FIRST_EPOCH <= EpochUnixSec(epoch) <= 1940630400
  {
  }

  lemma {:induction false} ScanAtLeast(epochSec: nat, seconds: nat, k: nat, elapsed: nat)
    requires k <= 5 && elapsed <= k && epochSec >= FIRST_EPOCH
    ensures ScanLeaps(epochSec, seconds, k, elapsed) > 0
    decreases 5 - k
  {
    if k < 5 {
      if LeapEffective(k) <= epochSec {
        ScanAtLeast(epochSec, seconds, k + 1, elapsed);
      } else {
        ScanAtLeast(epochSec, seconds, k + 1, elapsed + 1);
      }
    }
  }

  // ------------------------------------------------------------------ one time line

  /** Leap seconds already counted when POSIX time is t. */
  function LeapsBy(t: nat): nat {
    if t < LeapEffective(0) then 0 else if t < LeapEffective(1) then 1 else if t < LeapEffective(2) then 2
    else if t < LeapEffective(3) then 3 else if t < LeapEffective(4) then 4 else 5
  }

  /** Seconds elapsed since the first epoch, leap seconds included: the instant itself. */
  function Instant(epoch: nat, seconds: nat): int
    requires epoch < 64
  {
    EpochUnixSec(epoch) - FIRST_EPOCH + LeapsBy(EpochUnixSec(epoch)) + seconds
  }

  /** The instant of the k-th leap second. */
  function LeapInstant(k: nat): int
    requires k < 5
  {
    LeapEffective(k) - FIRST_EPOCH + k
  }

  predicate IsLeap(e: int) { exists k: nat :: k < 5 && e == LeapInstant(k) }

  /** How many leap seconds lie before an instant. */
  function LeapsBefore(e: int): nat {
    if e <= LeapInstant(0) then 0 else if e <= LeapInstant(1) then 1 else if e <= LeapInstant(2) then 2
    else if e <= LeapInstant(3) then 3 else if e <= LeapInstant(4) then 4 else 5
  }

  /** POSIX time of an instant, a leap second counted as the second before it. */
  function Posix(e: int): int {
    FIRST_EPOCH + e - LeapsBefore(e) - if IsLeap(e) then 1 else 0
  }

  lemma LeapCases(e: int)
    ensures IsLeap(e) <==>
              || e == LeapInstant(0) || e == LeapInstant(1) || e == LeapInstant(2)
              || e == LeapInstant(3) || e == LeapInstant(4)
  {
    if IsLeap(e) {
      var k: nat :| k < 5 && e == LeapInstant(k);
      assert k == 0 || k == 1 || k == 2 || k == 3 || k == 4;
    }
  }

  /** From entry k on, with the entries before it accounted for, the scan finds the POSIX time. */
  lemma {:induction false} ScanIsPosix(epochSec: nat, seconds: nat, k: nat, elapsed: nat, e: int)
    requires k <= 5 && e == epochSec - FIRST_EPOCH + LeapsBy(epochSec) + seconds
    requires k <= LeapsBy(epochSec) ==> elapsed == 0
    requires k >= LeapsBy(epochSec) ==> elapsed == k - LeapsBy(epochSec)
    requires k > 0 ==> e > LeapInstant(k - 1)
    ensures ScanLeaps(epochSec, seconds, k, elapsed) == Posix(e)
    decreases 5 - k
  {
    LeapCases(e);
    if k < 5 {
      if LeapEffective(k) <= epochSec {
        ScanIsPosix(epochSec, seconds, k + 1, elapsed, e);
      } else if seconds > LeapEffective(k) - epochSec + elapsed {
        ScanIsPosix(epochSec, seconds, k + 1, elapsed + 1, e);
      }
    }
  }

  /** The conversion depends on the instant alone, not on the epoch it is counted from. */
  lemma TimestampOfInstant(epoch: nat, seconds: nat, frame: nat)
    requires epoch < 64
    ensures Posix(Instant(epoch, seconds)) >= 0
    ensures Timestamp(epoch, seconds, frame) == Ok(Posix(Instant(epoch, seconds)) * NS_PER_SEC + frame * FRAME_NS)
  {
    EpochBound(epoch);
    ScanAtLeast(EpochUnixSec(epoch), seconds, 0, 0);
    ScanIsPosix(EpochUnixSec(epoch), seconds, 0, 0, Instant(epoch, seconds));
    hide Posix, ScanLeaps, Instant;
  }

  lemma EpochIndependent(epoch: nat, seconds: nat, epoch': nat, seconds': nat, frame: nat)
    requires epoch < 64 && epoch' < 64 && Instant(epoch, seconds) == Instant(epoch', seconds')
    ensures Timestamp(epoch, seconds, frame) == Timestamp(epoch', seconds', frame)
  {
    hide Posix, Timestamp, Instant;
    TimestampOfInstant(epoch, seconds, frame);
    TimestampOfInstant(epoch', seconds', frame);
  }

  /** One second later is one POSIX second later, except into a leap second, which stands still. */
  lemma PosixNext(e: int)
    ensures Posix(e + 1) == Posix(e) + if IsLeap(e + 1) then 0 else 1
  {
    LeapCases(e);
    LeapCases(e + 1);
    hide IsLeap;
  }

  lemma {:induction false} PosixMonotone(e: int, n: nat)
    ensures Posix(e) <= Posix(e + n)
    decreases n
  {
    hide Posix;
    if n != 0 {
      PosixMonotone(e, n - 1);
      PosixNext(e + n - 1);
    }
  }

  /** At a fixed frame number, time never runs backwards. */
  lemma TimestampMonotone(epoch: nat, seconds: nat, seconds': nat, frame: nat)
    requires epoch < 64 && seconds <= seconds'
    ensures Timestamp(epoch, seconds, frame).ns <= Timestamp(epoch, seconds', frame).ns
  {
    TimestampOfInstant(epoch, seconds, frame);
    TimestampOfInstant(epoch, seconds', frame);
    PosixMonotone(Instant(epoch, seconds), seconds' - seconds);
    hide Posix, Timestamp;
  }

  // ------------------------------------------------------------------ packets

  /** The time of a packet number counted from an epoch. */
  function PacketTime(epoch: nat, id: nat): int
    requires epoch < 64
  {
    Timestamp(epoch, id / FRAMES_PER_SECOND, id % FRAMES_PER_SECOND).ns
  }

  /** The packet is the first of a leap second. */
  predicate EntersLeap(epoch: nat, id: nat)
    requires epoch < 64
  {
    id % FRAMES_PER_SECOND == 0 && IsLeap(Instant(epoch, id / FRAMES_PER_SECOND))
  }

  /** Packets are sixteen microseconds apart, except that a leap second repeats the one before. */
  lemma PacketStep(epoch: nat, id: nat)
    requires epoch < 64
    ensures PacketTime(epoch, id + 1)
         == PacketTime(epoch, id) + FRAME_NS - if EntersLeap(epoch, id + 1) then NS_PER_SEC else 0
  {
    hide Posix, Timestamp, IsLeap, Instant;
    var s, f := id / FRAMES_PER_SECOND, id % FRAMES_PER_SECOND;
    TimestampOfInstant(epoch, s, f);
    NextPacket(id);
    if f + 1 < FRAMES_PER_SECOND {
      TimestampOfInstant(epoch, s, f + 1);
    } else {
      TimestampOfInstant(epoch, s + 1, 0);
      InstantNext(epoch, s);
      PosixNext(Instant(epoch, s));
    }
  }

  lemma NextPacket(id: nat)
    ensures var s, f := id / FRAMES_PER_SECOND, id % FRAMES_PER_SECOND;
            if f + 1 < FRAMES_PER_SECOND
            then (id + 1) / FRAMES_PER_SECOND == s && (id + 1) % FRAMES_PER_SECOND == f + 1
            else (id + 1) / FRAMES_PER_SECOND == s + 1 && (id + 1) % FRAMES_PER_SECOND == 0
  {
  }

  lemma InstantNext(epoch: nat, seconds: nat)
    requires epoch < 64
    ensures Instant(epoch, seconds + 1) == Instant(epoch, seconds) + 1
  {
  }

  /** Over any stretch of packets that enters no leap second, time is exact. */
  lemma {:induction false} PacketSpan(epoch: nat, id: nat, n: nat)
    requires epoch < 64 && forall j :: id < j <= id + n ==> !EntersLeap(epoch, j)
    ensures PacketTime(epoch, id + n) == PacketTime(epoch, id) + n * FRAME_NS
    decreases n
  {
    hide PacketTime, EntersLeap;
    if n != 0 {
      PacketSpan(epoch, id, n - 1);
      PacketStep(epoch, id + n - 1);
    }
  }
}
