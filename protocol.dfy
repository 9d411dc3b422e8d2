/** What the two nodes read out of a stream of bytes or keys: the scan loops
    ("read until one of these arrives"), the password packet, the keypad entry
    and the attempt counter rule. Both node models are specified with these. */
module Protocol {
  import opened Wire

  /** Where a loop that reads `q` one element at a time until it reads an
      element of `s` stops: the index of that element, or |q| when the stream
      ends first and the reader would still be waiting. This is the shape of
      `while (UART_recieveByte() != m);`, of awaitPasswordResponse, of
      `while (PIR_getState());` and of the keypad loops. */
  function Seek<T(==)>(q: seq<T>, s: set<T>): (k: nat)
    ensures k <= |q|
    ensures k < |q| ==> q[k] in s
    ensures forall j :: 0 <= j < k ==> q[j] !in s
    decreases |q|
  {
    if q == [] then 0
    else if q[0] in s then 0
    else 1 + Seek(q[1..], s)
  }

  /** A scan stops at the first element of `s`, whatever precedes it. */
  lemma {:induction false} SeekSkips<T>(junk: seq<T>, x: T, rest: seq<T>, s: set<T>)
    requires forall i :: 0 <= i < |junk| ==> junk[i] !in s
    requires x in s
    ensures Seek(junk + [x] + rest, s) == |junk|
  {
    if junk != [] {
      assert (junk + [x] + rest)[1..] == junk[1..] + [x] + rest;
      SeekSkips(junk[1..], x, rest, s);
    }
  }

  /** A scan that has not found anything yet keeps scanning what arrives later. */
  lemma {:induction false} SeekExtends<T>(q: seq<T>, more: seq<T>, s: set<T>)
    requires Seek(q, s) == |q|
    ensures Seek(q + more, s) == |q| + Seek(more, s)
  {
    if q != [] {
      assert q[0] !in s;
      assert (q + more)[0] == q[0] && (q + more)[1..] == q[1..] + more;
      SeekExtends(q[1..], more, s);
    } else {
      assert q + more == more;
    }
  }

  /** The six bytes the front-end sends for one password (hmi.c:272-279). */
  function Frame(code: seq<Byte>): seq<Byte> {
    [START_PASSWORD] + code
  }

  /** A password read from a stream (link bytes or keys) and the unread rest. */
  datatype Entry = Entry(code: seq<Byte>, rest: seq<Byte>)

  /** The back-end's read of one password (control.c:184-191): skip up to and
      including the first START_PASSWORD, then take the next five bytes as they
      are, digits or not. None: not all of it has arrived yet. */
  function ReadPacket(q: seq<Byte>): (r: Option<Entry>)
    ensures r.Some? ==> |r.value.code| == PASSWORD_SIZE && |r.value.rest| + PASSWORD_SIZE < |q|
  {
    var k := Seek(q, {START_PASSWORD});
    if k + PASSWORD_SIZE < |q| then Some(Entry(q[k + 1..k + 1 + PASSWORD_SIZE], q[k + 1 + PASSWORD_SIZE..]))
    else None
  }

  /** Framing round trip: whatever non-marker bytes precede it, the back-end
      reads back exactly the five bytes the front-end framed. */
  lemma ReadFramed(junk: seq<Byte>, code: seq<Byte>, rest: seq<Byte>)
    requires START_PASSWORD !in junk
    requires |code| == PASSWORD_SIZE
    ensures ReadPacket(junk + Frame(code) + rest) == Some(Entry(code, rest))
  {
    var q := junk + Frame(code) + rest;
    assert q == junk + [START_PASSWORD] + (code + rest);
    SeekSkips(junk, START_PASSWORD, code + rest, {START_PASSWORD});
    assert q[|junk| + 1..|junk| + 1 + PASSWORD_SIZE] == code;
    assert q[|junk| + 1 + PASSWORD_SIZE..] == rest;
  }

  /** A packet is read only once all of it has arrived: with a frame cut short
      the reader is still waiting. */
  lemma ReadWaitsForWholeFrame(junk: seq<Byte>, code: seq<Byte>, n: nat)
    requires START_PASSWORD !in junk
    requires |code| == PASSWORD_SIZE && n < PASSWORD_SIZE
    ensures ReadPacket(junk + Frame(code)[..n + 1]) == None
  {
    var q := junk + Frame(code)[..n + 1];
    assert q == junk + [START_PASSWORD] + code[..n];
    SeekSkips(junk, START_PASSWORD, code[..n], {START_PASSWORD});
  }

  /** The keys of `keys` that the front-end accepts as password digits, in order. */
  function DigitsOf(keys: seq<Byte>): seq<Byte> {
    if keys == [] then []
    else (if IsDigit(keys[0]) then [keys[0]] else []) + DigitsOf(keys[1..])
  }

  /** `prefix` in front of the password of an entry. */
  function Join(prefix: seq<Byte>, r: Option<Entry>): Option<Entry> {
    match r
    case None => None
    case Some(e) => Some(Entry(prefix + e.code, e.rest))
  }

  /** Joining two prefixes one after the other joins their concatenation. */
  lemma JoinJoin(a: seq<Byte>, b: seq<Byte>, r: Option<Entry>)
    ensures Join(a, Join(b, r)) == Join(a + b, r)
  {
    if r.Some? {
      assert a + (b + r.value.code) == (a + b) + r.value.code;
    }
  }

  /** An empty prefix changes nothing. */
  lemma JoinNothing(r: Option<Entry>)
    ensures Join([], r) == r
  {
    if r.Some? {
      assert [] + r.value.code == r.value.code;
    }
  }

  /** The digit loop of getPasswordSend (hmi.c:250-266): take keys until `n` of
      them are digits; a key outside 0..9 is read but fills no slot. None: the
      keys run out first, which happens exactly when they hold fewer than `n`
      digits. */
  function CollectDigits(keys: seq<Byte>, n: nat): (r: Option<Entry>)
    ensures r.Some? <==> n <= |DigitsOf(keys)|
    ensures r.Some? ==> |r.value.code| == n && (forall i :: 0 <= i < n ==> IsDigit(r.value.code[i]))
    ensures r.Some? ==> |r.value.rest| <= |keys|
    decreases |keys|
  {
    if n == 0 then Some(Entry([], keys))
    else if keys == [] then None
    else if IsDigit(keys[0]) then Join([keys[0]], CollectDigits(keys[1..], n - 1))
    else CollectDigits(keys[1..], n)
  }

  /** What the digit loop collects: exactly `n` digits, which are the digits among
      the keys it read, in order; it leaves the rest of the keys unread. */
  lemma {:induction false} CollectDigitsSpec(keys: seq<Byte>, n: nat)
    requires CollectDigits(keys, n).Some?
    ensures var e := CollectDigits(keys, n).value;
            && |e.code| == n
            && (forall i :: 0 <= i < n ==> IsDigit(e.code[i]))
            && |e.rest| <= |keys| && e.rest == keys[|keys| - |e.rest|..]
            && e.code == DigitsOf(keys[..|keys| - |e.rest|])
    decreases |keys|
  {
    if n == 0 {
      assert keys[..0] == [];
    } else {
      var e := CollectDigits(keys, n).value;
      var m := if IsDigit(keys[0]) then n - 1 else n;
      CollectDigitsSpec(keys[1..], m);
      var f := CollectDigits(keys[1..], m).value;
      assert e.rest == f.rest;
      var used := |keys| - |e.rest|;
      assert keys[..used] == [keys[0]] + keys[1..][..|keys[1..]| - |f.rest|];
      assert keys[..used][1..] == keys[1..][..|keys[1..]| - |f.rest|];
    }
  }

  /** Digit keys are read back as exactly those digits. */
  lemma {:induction false} CollectTyped(code: seq<Byte>, rest: seq<Byte>)
    requires forall i :: 0 <= i < |code| ==> IsDigit(code[i])
    ensures CollectDigits(code + rest, |code|) == Some(Entry(code, rest))
  {
    if code != [] {
      var q := code + rest;
      assert q[0] == code[0] && IsDigit(q[0]);
      assert q[1..] == code[1..] + rest;
      CollectTyped(code[1..], rest);
      assert [code[0]] + code[1..] == code;
    } else {
      assert code + rest == rest;
    }
  }

  /** One complete password entry on the keypad: five digits, then any keys up
      to and including ENTER (hmi.c:250-269). The entry is five digits, the
      last key it reads is ENTER, and the keys after it are left unread. */
  function CollectEntry(keys: seq<Byte>): (r: Option<Entry>)
    ensures r.Some? ==> |r.value.code| == PASSWORD_SIZE && (forall i :: 0 <= i < PASSWORD_SIZE ==> IsDigit(r.value.code[i]))
    ensures r.Some? ==> && |r.value.rest| < |keys| && r.value.rest == keys[|keys| - |r.value.rest|..]
                        && keys[|keys| - |r.value.rest| - 1] == KEYPAD_ENTER_BUTTON
  {
    match CollectDigits(keys, PASSWORD_SIZE)
    case None => None
    case Some(d) =>
      var k := Seek(d.rest, {KEYPAD_ENTER_BUTTON});
      if k < |d.rest| then
        CollectDigitsSpec(keys, PASSWORD_SIZE);
        assert keys[|keys| - |d.rest| + k] == d.rest[k];
        Some(Entry(d.code, d.rest[k + 1..]))
      else None
  }

  /** Five digit keys followed by ENTER are read back as that password. */
  lemma EntryOfTypedCode(code: seq<Byte>, rest: seq<Byte>)
    requires |code| == PASSWORD_SIZE
    requires forall i :: 0 <= i < |code| ==> IsDigit(code[i])
    ensures CollectEntry(code + [KEYPAD_ENTER_BUTTON] + rest) == Some(Entry(code, rest))
  {
    assert code + [KEYPAD_ENTER_BUTTON] + rest == code + ([KEYPAD_ENTER_BUTTON] + rest);
    CollectTyped(code, [KEYPAD_ENTER_BUTTON] + rest);
    SeekSkips([], KEYPAD_ENTER_BUTTON, rest, {KEYPAD_ENTER_BUTTON});
    assert [KEYPAD_ENTER_BUTTON] + rest == [] + [KEYPAD_ENTER_BUTTON] + rest;
  }

  /** The two flows of the front-end menu. */
  datatype Flow = Door | Change

  /** The opcode that opens a flow on the link. */
  function FlowOpcode(flow: Flow): Byte {
    match flow
    case Door => START_PHASE_TWO_DOOR
    case Change => START_PHASE_TWO_CHANGE
  }

  /** The front-end's rule on a failed verification (hmi.c:160-177, 198-215):
      Some(next counter) while attempts remain, None when the system locks. */
  function AfterFailure(attempts: nat): (r: Option<nat>)
    ensures r.Some? ==> attempts < r.value <= MAXIMUM_PASSWORD_ATTEMPTS
    ensures r.None? ==> attempts >= MAXIMUM_PASSWORD_ATTEMPTS
  {
    if attempts < MAXIMUM_PASSWORD_ATTEMPTS then Some(attempts + 1) else None
  }

  /** The counter after `n` consecutive failures of one flow started at
      `attempts`; None once the system has locked. */
  function AfterFailures(attempts: nat, n: nat): Option<nat>
    decreases n
  {
    if n == 0 then Some(attempts)
    else match AfterFailure(attempts)
      case None => None
      case Some(a) => AfterFailures(a, n - 1)
  }

  /** Starting at 1, a flow locks down exactly on its third consecutive failure. */
  lemma {:induction false} LockdownOnThirdFailure(n: nat)
    ensures AfterFailures(1, n).None? <==> n >= MAXIMUM_PASSWORD_ATTEMPTS
    ensures n < MAXIMUM_PASSWORD_ATTEMPTS ==> AfterFailures(1, n) == Some(n + 1)
  {
    if n >= 1 {
      assert AfterFailures(1, n) == AfterFailures(2, n - 1);
      if n >= 2 {
        assert AfterFailures(2, n - 1) == AfterFailures(3, n - 2);
        if n >= 3 {
          assert AfterFailures(3, n - 2) == None;
        }
      }
    }
  }
}
