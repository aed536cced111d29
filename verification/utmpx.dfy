/**
 * The login record written to the utmpx database when a session starts,
 * and the DEAD_PROCESS update written when it ends.
 *
 * `pututxline` is represented by the list of records written; timestamps
 * are not modelled.
 */
module Utmpx {
  import Cli

  /** Field widths of glibc's `struct utmpx`. */
  const USER_WIDTH: nat := 32
  const LINE_WIDTH: nat := 32
  const ID_WIDTH: nat := 4

  /** `ut_type` values. */
  const USER_PROCESS: int := 7
  const DEAD_PROCESS: int := 8

  /** The fields of a record that the login manager sets. */
  datatype Record = Record(utType: int, pid: int, user: seq<bv8>, line: seq<bv8>, id: seq<bv8>)

  /** A zero-filled record, as `mem::zeroed` produces. */
  function Zeroed(): (r: Record)
    ensures r.utType == 0 && r.pid == 0 && |r.user| == USER_WIDTH && |r.line| == LINE_WIDTH && |r.id| == ID_WIDTH
  {
    Record(0, 0, Zeros(USER_WIDTH), Zeros(LINE_WIDTH), Zeros(ID_WIDTH))
  }

  function Zeros(n: nat): (r: seq<bv8>)
    ensures |r| == n && forall i :: 0 <= i < n ==> r[i] == 0
  {
    seq(n, _ => 0)
  }

  function Min(a: nat, b: nat): nat {
    if a < b then a else b
  }

  /** The field after copying as much of `src` as fits over its start. */
  function Truncated(field: seq<bv8>, src: seq<bv8>): (r: seq<bv8>) {
    var n := Min(|src|, |field|);
    src[..n] + field[n..]
  }

  /**
   * Copies the first bytes of `src` into `field`, stopping at whichever
   * ends first.
   */
  method CopyTruncated(field: seq<bv8>, src: seq<bv8>) returns (r: seq<bv8>)
    ensures |r| == |field|
    ensures forall i :: 0 <= i < |r| ==> r[i] == if i < |src| then src[i] else field[i]
    ensures r == Truncated(field, src)
  {
    var n := Min(|src|, |field|);
    r := field;
    var i := 0;
    while i < n
      invariant 0 <= i <= n
      invariant |r| == |field|
      invariant forall j :: 0 <= j < |r| ==> r[j] == if j < i then src[j] else field[j]
    {
      r := r[i := src[i]];
      i := i + 1;
    }
    assert r == Truncated(field, src);
  }

  /** The ASCII bytes of a decimal spelling. */
  function DigitBytes(s: string): (r: seq<bv8>)
    requires forall i :: 0 <= i < |s| ==> Cli.IsDigit(s[i])
    ensures |r| == |s| && forall i :: 0 <= i < |s| ==> r[i] as int == s[i] as int
  {
    seq(|s|, i requires 0 <= i < |s| && Cli.IsDigit(s[i]) => (s[i] as int) as bv8)
  }

  /** The decimal spelling of a terminal number, as bytes. */
  function IdBytes(tty: nat): seq<bv8> {
    DigitBytes(Cli.Decimal(tty))
  }

  /** The device name "tty" followed by the terminal number. */
  function LineBytes(tty: nat): seq<bv8> {
    [0x74, 0x74, 0x79] + IdBytes(tty)
  }

  /** A process id as `pid_t`: the unsigned value reinterpreted as signed 32-bit. */
  function PidT(pid: nat): (r: int)
    requires pid < 0x1_0000_0000
    ensures -0x8000_0000 <= r < 0x8000_0000
    ensures r % 0x1_0000_0000 == pid
  {
    if pid < 0x8000_0000 then pid else pid - 0x1_0000_0000
  }

  /** Whether the C library provides utmpx; elsewhere nothing is recorded. */
  datatype Platform = Gnu | OtherLibc

  /** The handle whose destruction writes the closing record. */
  datatype Session = Tracked(record: Record) | Untracked

  /**
   * Builds the USER_PROCESS record for `username` on terminal `tty` and
   * writes it. Returns the session handle and the records written.
   */
  method AddEntry(platform: Platform, username: seq<bv8>, tty: nat, pid: nat) returns (s: Session, written: seq<Record>)
    requires tty < 256 && pid < 0x1_0000_0000
    ensures platform == OtherLibc ==> s == Untracked && written == []
    ensures platform == Gnu ==> s.Tracked? && written == [s.record]
    ensures s.Tracked? ==>
      && s.record.utType == USER_PROCESS
      && s.record.pid == PidT(pid)
      && s.record.user == Truncated(Zeros(USER_WIDTH), username)
      && s.record.line == Truncated(Zeros(LINE_WIDTH), LineBytes(tty))
      && s.record.id == Truncated(Zeros(ID_WIDTH), IdBytes(tty))
  {
    if platform == OtherLibc {
      return Untracked, [];
    }
    var z := Zeroed();
    var user := CopyTruncated(z.user, username);
    var line := CopyTruncated(z.line, LineBytes(tty));
    var id := CopyTruncated(z.id, IdBytes(tty));
    var record := Record(USER_PROCESS, PidT(pid), user, line, id);
    s := Tracked(record);
    written := [record];
  }

  /** A terminal number of at most 255 has at most three digits. */
  lemma DecimalWidth(tty: nat)
    requires tty < 256
    ensures 1 <= |IdBytes(tty)| <= 3
  {
    if tty >= 10 {
      assert Cli.Decimal(tty) == Cli.Decimal(tty / 10) + ['0' + (tty % 10) as char];
      if tty / 10 >= 10 {
        assert Cli.Decimal(tty / 10) == Cli.Decimal(tty / 100) + ['0' + (tty / 10 % 10) as char];
      }
    }
  }

  /** The user field holds the name's first bytes, padded with zeros. */
  lemma UserFieldContents(username: seq<bv8>, i: nat)
    requires i < USER_WIDTH
    ensures var f := Truncated(Zeros(USER_WIDTH), username);
      |f| == USER_WIDTH && f[i] == if i < |username| then username[i] else 0
  {
  }

  /**
   * Neither terminal field is cut short: the id field holds the whole
   * decimal spelling of `tty`, whose value is `tty`, and the line field
   * holds "tty" and that spelling, each followed by zeros.
   */
  lemma TtyFieldsFit(tty: nat)
    requires tty < 256
    ensures var d := Cli.Decimal(tty);
      && |d| <= 3
      && Truncated(Zeros(ID_WIDTH), IdBytes(tty)) == DigitBytes(d) + Zeros(ID_WIDTH - |d|)
      && Truncated(Zeros(LINE_WIDTH), LineBytes(tty)) == [0x74, 0x74, 0x79] + DigitBytes(d) + Zeros(LINE_WIDTH - 3 - |d|)
      && Cli.DigitsValue(d) == tty
  {
    DecimalWidth(tty);
    Cli.DecimalValue(tty);
    TruncatedZerosFits(ID_WIDTH, IdBytes(tty));
    TruncatedZerosFits(LINE_WIDTH, LineBytes(tty));
  }

  /** A source that fits is copied whole, followed by the field's remaining zeros. */
  lemma TruncatedZerosFits(width: nat, src: seq<bv8>)
    requires |src| <= width
    ensures Truncated(Zeros(width), src) == src + Zeros(width - |src|)
  {
    assert src[..|src|] == src;
  }

  /**
   * Ends the session: the stored record becomes DEAD_PROCESS with the user
   * field cleared and is written again.
   */
  function Teardown(s: Session): (written: seq<Record>)
    ensures s.Untracked? ==> written == []
    ensures s.Tracked? ==>
      && |written| == 1
      && written[0].utType == DEAD_PROCESS
      && written[0].user == Zeros(|s.record.user|)
      && written[0].line == s.record.line
      && written[0].id == s.record.id
      && written[0].pid == s.record.pid
  {
    match s
    case Untracked => []
    case Tracked(rec) => [rec.(utType := DEAD_PROCESS, user := Zeros(|rec.user|))]
  }

  /**
   * A session's closing record names the same terminal and process as its
   * opening one, so the database entry it replaces is the one written at
   * login, and no user name survives in it.
   */
  method OpenThenClose(username: seq<bv8>, tty: nat, pid: nat) returns (login: Record, logout: Record)
    requires tty < 256 && pid < 0x1_0000_0000
    ensures login.utType == USER_PROCESS && logout.utType == DEAD_PROCESS
    ensures logout.id == login.id && logout.line == login.line && logout.pid == login.pid
    ensures |logout.user| == USER_WIDTH && forall i :: 0 <= i < USER_WIDTH ==> logout.user[i] == 0
  {
    var s, w := AddEntry(Gnu, username, tty, pid);
    login := s.record;
    logout := Teardown(s)[0];
  }
}
