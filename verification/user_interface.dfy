/** The user interface's keypad code-entry gate and its display timers.

    The code buffer is a fixed-length sequence of characters whose length is
    the code length (the number of keys of a code); a cleared slot holds
    '\0'. The matrix keypad driver delivers at most one released key per
    update, '\0' meaning none. The siren level is read from the alarm and
    arrives as a parameter, and the per-update time increment of the system
    loop is a parameter as well. Rendered strings are not modelled. */
module UserInterface {

  const DisplayRefreshTimeMs: int := 1000
  const CodePromptTimeMs: int := 5000
  const ButtonDisplayTimeMs: int := 2000

  /** The module's globals, including the two function-local statics
      (the hash-key counter of the keypad update and the accumulated
      display time of the display update). */
  datatype GateState = GateState(
    code: seq<char>,
    numberOfCodeChars: int,
    codeComplete: bool,
    incorrectCodeState: bool,
    systemBlockedState: bool,
    numberOfHashKeyReleased: int,
    codePromptDisplayed: bool,
    codePromptTime: int,
    buttonDisplayActive: bool,
    buttonDisplayTime: int,
    accumulatedDisplayTime: int)

  /** One call into the module from outside: a full interface update with
      the key released in it, or one of the three setters. */
  datatype UiEvent =
    | Tick(key: char, sirenOn: bool, increment: int)
    | CodeCompleteWritten(complete: bool)
    | IncorrectCodeWritten(incorrect: bool)
    | SystemBlockedWritten(blocked: bool)

  predicate IsDigit(c: char)
  {
    '0' <= c <= '9'
  }

  predicate AllDigits(keys: seq<char>)
  {
    forall i :: 0 <= i < |keys| ==> IsDigit(keys[i])
  }

  /** A buffer of `n` zeroed slots, as left by clearing it with zero bytes. */
  function Cleared(n: nat): (r: seq<char>)
    ensures |r| == n
    ensures forall i :: 0 <= i < n ==> r[i] == '\0'
  {
    seq(n, _ => '\0')
  }

  /** The gate's own invariant: a non-empty buffer, a write position inside
      it, and a hash counter that is 0 or 1 between events. */
  predicate Valid(s: GateState)
  {
    && |s.code| > 0
    && 0 <= s.numberOfCodeChars < |s.code|
    && 0 <= s.numberOfHashKeyReleased < 2
  }

  /** The display timers' invariant: both counters move in whole refresh
      periods, the code prompt is shown exactly until its counter passes the
      prompt time, and the button-display counter stays below its limit. */
  predicate DisplayTimersValid(s: GateState)
  {
    && 0 <= s.codePromptTime
    && s.codePromptTime % DisplayRefreshTimeMs == 0
    && (s.codePromptDisplayed <==> s.codePromptTime <= CodePromptTimeMs)
    && 0 <= s.buttonDisplayTime < ButtonDisplayTimeMs
    && s.buttonDisplayTime % DisplayRefreshTimeMs == 0
  }

  /** Everything that holds in a state reachable from power-up. */
  predicate Consistent(s: GateState)
  {
    Valid(s) && DisplayTimersValid(s) && !s.buttonDisplayActive
  }

  /** State after initialisation for a code of `n` keys: an empty, zeroed
      buffer, every flag and counter at zero, and the code prompt shown. */
  function Init(n: nat): (s: GateState)
    requires n > 0
    ensures Consistent(s)
    ensures |s.code| == n && s.numberOfCodeChars == 0
    ensures forall i :: 0 <= i < n ==> s.code[i] == '\0'
    ensures !s.codeComplete && !s.incorrectCodeState && !s.systemBlockedState
    ensures s.codePromptDisplayed
  {
    GateState(Cleared(n), 0, false, false, false, 0, true, 0, false, 0, 0)
  }

  /** The setter of the completion flag: setting it changes nothing else,
      clearing it also rewinds the write position and zeroes the buffer. */
  function CodeCompleteWrite(s: GateState, state: bool): (r: GateState)
    ensures r.codeComplete == state
    ensures state ==> r.code == s.code && r.numberOfCodeChars == s.numberOfCodeChars
    ensures !state ==> r.numberOfCodeChars == 0 && |r.code| == |s.code|
    ensures !state ==> forall i :: 0 <= i < |r.code| ==> r.code[i] == '\0'
    ensures r.incorrectCodeState == s.incorrectCodeState && r.systemBlockedState == s.systemBlockedState
    ensures r.numberOfHashKeyReleased == s.numberOfHashKeyReleased
    ensures r.codePromptDisplayed == s.codePromptDisplayed && r.codePromptTime == s.codePromptTime
    ensures r.buttonDisplayActive == s.buttonDisplayActive && r.buttonDisplayTime == s.buttonDisplayTime
    ensures r.accumulatedDisplayTime == s.accumulatedDisplayTime
    ensures Consistent(s) ==> Consistent(r)
  {
    var flagged := s.(codeComplete := state);
    if !state then flagged.(numberOfCodeChars := 0, code := Cleared(|s.code|))
    else flagged
  }

  /** The incorrect-code setter used by the code checker: only the flag moves. */
  function IncorrectCodeStateWrite(s: GateState, state: bool): (r: GateState)
    ensures r.incorrectCodeState == state
    ensures r.(incorrectCodeState := s.incorrectCodeState) == s
    ensures Consistent(s) ==> Consistent(r)
  {
    s.(incorrectCodeState := state)
  }

  /** The system-blocked setter: only the flag moves; no gate path reads it. */
  function SystemBlockedStateWrite(s: GateState, state: bool): (r: GateState)
    ensures r.systemBlockedState == state
    ensures r.(systemBlockedState := s.systemBlockedState) == s
    ensures Consistent(s) ==> Consistent(r)
  {
    s.(systemBlockedState := state)
  }

  /** The keypad step for one released key.

      Under an incorrect code, '#' counts towards the two-press
      acknowledgment and every other key is dropped. Otherwise a digit is
      written at the current position, and the digit that fills the buffer
      raises the completion flag and rewinds the position to 0; nothing stops
      digits while the flag is still raised. The status branch for keys '2'
      and '3' is kept as written, although those keys are digits and never
      reach it. */
  function KeypadUpdate(s: GateState, key: char, sirenOn: bool): (r: GateState)
    requires Valid(s)
    ensures Valid(r) && |r.code| == |s.code|
    ensures key == '\0' ==> r == s
    ensures s.incorrectCodeState && key != '#' ==> r == s
    ensures !IsDigit(key) && !(s.incorrectCodeState && key == '#') ==> r == s
    // the digit path
    ensures IsDigit(key) && !s.incorrectCodeState ==>
              && r.code == s.code[s.numberOfCodeChars := key]
              && (s.numberOfCodeChars + 1 < |s.code| ==>
                    r.numberOfCodeChars == s.numberOfCodeChars + 1 && r.codeComplete == s.codeComplete)
              && (s.numberOfCodeChars + 1 == |s.code| ==>
                    r.numberOfCodeChars == 0 && r.codeComplete)
              && !r.incorrectCodeState
              && r.numberOfHashKeyReleased == s.numberOfHashKeyReleased
    // the incorrect-code acknowledgment path
    ensures s.incorrectCodeState && key == '#' && s.numberOfHashKeyReleased == 0 ==>
              r == s.(numberOfHashKeyReleased := 1)
    ensures s.incorrectCodeState && key == '#' && s.numberOfHashKeyReleased == 1 ==>
              && !r.incorrectCodeState && !r.codeComplete
              && r.numberOfCodeChars == 0 && r.numberOfHashKeyReleased == 0
              && (forall i :: 0 <= i < |r.code| ==> r.code[i] == '\0')
    // what no key can do
    ensures r.incorrectCodeState ==> s.incorrectCodeState
    ensures r.codeComplete && !s.codeComplete ==> IsDigit(key) && r.numberOfCodeChars == 0
    ensures r.buttonDisplayActive ==> s.buttonDisplayActive
    ensures r.buttonDisplayTime == s.buttonDisplayTime
    ensures r.systemBlockedState == s.systemBlockedState
    ensures r.codePromptDisplayed == s.codePromptDisplayed && r.codePromptTime == s.codePromptTime
    ensures r.accumulatedDisplayTime == s.accumulatedDisplayTime
  {
    if key == '\0' then s
    else if s.incorrectCodeState && key == '#' then
      var hashes := s.numberOfHashKeyReleased + 1;
      if hashes >= 2 then
        s.(numberOfHashKeyReleased := 0, numberOfCodeChars := 0, codeComplete := false,
           incorrectCodeState := false, code := Cleared(|s.code|))
      else s.(numberOfHashKeyReleased := hashes)
    else if IsDigit(key) && !s.incorrectCodeState then
      var written := s.(code := s.code[s.numberOfCodeChars := key],
                        numberOfCodeChars := s.numberOfCodeChars + 1);
      if written.numberOfCodeChars >= |written.code| then
        written.(codeComplete := true, numberOfCodeChars := 0, buttonDisplayActive := false)
      else written
    else if !s.incorrectCodeState && s.numberOfCodeChars == 0 && !sirenOn && (key == '2' || key == '3') then
      s.(buttonDisplayActive := true, buttonDisplayTime := 0)
    else s
  }

  /** The display step: between refreshes it only accumulates time; on a
      refresh it retires the code prompt once its time is up, advances the
      prompt counter, and expires a status display after its time. */
  function DisplayUpdate(s: GateState, increment: int): (r: GateState)
    ensures r.codePromptDisplayed ==> s.codePromptDisplayed
    ensures r.buttonDisplayActive ==> s.buttonDisplayActive
    ensures s.accumulatedDisplayTime < DisplayRefreshTimeMs ==>
              r == s.(accumulatedDisplayTime := s.accumulatedDisplayTime + increment)
    ensures s.accumulatedDisplayTime >= DisplayRefreshTimeMs ==>
              && r.accumulatedDisplayTime == 0
              && r.codePromptTime == s.codePromptTime + DisplayRefreshTimeMs
              && (r.codePromptDisplayed <==> s.codePromptDisplayed && s.codePromptTime < CodePromptTimeMs)
    ensures s.accumulatedDisplayTime >= DisplayRefreshTimeMs && s.buttonDisplayActive &&
            s.buttonDisplayTime + DisplayRefreshTimeMs >= ButtonDisplayTimeMs ==>
              !r.buttonDisplayActive && r.buttonDisplayTime == 0
    ensures s.accumulatedDisplayTime >= DisplayRefreshTimeMs && s.buttonDisplayActive &&
            s.buttonDisplayTime + DisplayRefreshTimeMs < ButtonDisplayTimeMs ==>
              r.buttonDisplayActive && r.buttonDisplayTime == s.buttonDisplayTime + DisplayRefreshTimeMs
    ensures !s.buttonDisplayActive ==> r.buttonDisplayTime == s.buttonDisplayTime
    // the code-entry state is left alone
    ensures r.code == s.code && r.numberOfCodeChars == s.numberOfCodeChars
    ensures r.codeComplete == s.codeComplete && r.incorrectCodeState == s.incorrectCodeState
    ensures r.systemBlockedState == s.systemBlockedState
    ensures r.numberOfHashKeyReleased == s.numberOfHashKeyReleased
    ensures DisplayTimersValid(s) ==> DisplayTimersValid(r)
  {
    if s.accumulatedDisplayTime >= DisplayRefreshTimeMs then
      var refreshed := s.(accumulatedDisplayTime := 0);
      var promptChecked :=
        if refreshed.codePromptDisplayed && refreshed.codePromptTime >= CodePromptTimeMs
        then refreshed.(codePromptDisplayed := false)
        else refreshed;
      var promptTimed := promptChecked.(codePromptTime := promptChecked.codePromptTime + DisplayRefreshTimeMs);
      if promptTimed.buttonDisplayActive then
        var shown := promptTimed.buttonDisplayTime + DisplayRefreshTimeMs;
        if shown >= ButtonDisplayTimeMs
        then promptTimed.(buttonDisplayActive := false, buttonDisplayTime := 0)
        else promptTimed.(buttonDisplayTime := shown)
      else promptTimed
    else s.(accumulatedDisplayTime := s.accumulatedDisplayTime + increment)
  }

  /** One interface update: the keypad first, then the display (the two LED
      indicators only mirror flags). */
  function Update(s: GateState, key: char, sirenOn: bool, increment: int): (r: GateState)
    requires Valid(s)
    ensures Valid(r) && |r.code| == |s.code|
    ensures Consistent(s) ==> Consistent(r)
    ensures r.codePromptDisplayed ==> s.codePromptDisplayed
    ensures r.incorrectCodeState ==> s.incorrectCodeState
  {
    DisplayUpdate(KeypadUpdate(s, key, sirenOn), increment)
  }

  /** Apply one outside call. */
  function Step(s: GateState, e: UiEvent): (r: GateState)
    requires Valid(s)
    ensures Valid(r) && |r.code| == |s.code|
    ensures Consistent(s) ==> Consistent(r)
  {
    match e
    case Tick(key, sirenOn, increment) => Update(s, key, sirenOn, increment)
    case CodeCompleteWritten(complete) => CodeCompleteWrite(s, complete)
    case IncorrectCodeWritten(incorrect) => IncorrectCodeStateWrite(s, incorrect)
    case SystemBlockedWritten(blocked) => SystemBlockedStateWrite(s, blocked)
  }

  /** The state after a sequence of outside calls. */
  function Run(s: GateState, events: seq<UiEvent>): (r: GateState)
    requires Valid(s)
    ensures Valid(r) && |r.code| == |s.code|
    ensures Consistent(s) ==> Consistent(r)
    decreases |events|
  {
    if |events| == 0 then s else Run(Step(s, events[0]), events[1..])
  }

  /** Whatever sequence of calls follows power-up, the status display is
      never shown, the write position stays inside the buffer, and the code
      prompt is shown exactly while its counter has not passed 5000 ms. */
  lemma ReachableStatesConsistent(n: nat, events: seq<UiEvent>)
    requires n > 0
    ensures !Run(Init(n), events).buttonDisplayActive
    ensures 0 <= Run(Init(n), events).numberOfCodeChars < n
    ensures Run(Init(n), events).codePromptDisplayed <==> Run(Init(n), events).codePromptTime <= CodePromptTimeMs
  {
  }

  /** The state after the keypad step for each key in turn. */
  function EnterKeys(s: GateState, keys: seq<char>, sirenOn: bool): (r: GateState)
    requires Valid(s)
    ensures Valid(r) && |r.code| == |s.code|
    ensures r.incorrectCodeState ==> s.incorrectCodeState
    decreases |keys|
  {
    if |keys| == 0 then s else EnterKeys(KeypadUpdate(s, keys[0], sirenOn), keys[1..], sirenOn)
  }

  /** Digits that do not fill the buffer are written one after another from
      the current position, which advances past them; the completion flag
      does not move. */
  lemma {:induction false} DigitsFillCode(s: GateState, keys: seq<char>, sirenOn: bool)
    requires Valid(s) && !s.incorrectCodeState
    requires AllDigits(keys)
    requires s.numberOfCodeChars + |keys| < |s.code|
    ensures EnterKeys(s, keys, sirenOn).numberOfCodeChars == s.numberOfCodeChars + |keys|
    ensures EnterKeys(s, keys, sirenOn).code ==
              s.code[..s.numberOfCodeChars] + keys + s.code[s.numberOfCodeChars + |keys|..]
    ensures EnterKeys(s, keys, sirenOn).codeComplete == s.codeComplete
    ensures !EnterKeys(s, keys, sirenOn).incorrectCodeState
    decreases |keys|
  {
    var c := s.numberOfCodeChars;
    if |keys| == 0 {
      assert s.code[..c] + keys + s.code[c..] == s.code;
    } else {
      var next := KeypadUpdate(s, keys[0], sirenOn);
      assert next.code == s.code[c := keys[0]] && next.numberOfCodeChars == c + 1;
      assert AllDigits(keys[1..]) by {
        forall i | 0 <= i < |keys[1..]| ensures IsDigit(keys[1..][i]) {
          assert keys[1..][i] == keys[i + 1];
        }
      }
      DigitsFillCode(next, keys[1..], sirenOn);
      assert next.code[..c + 1] == s.code[..c] + [keys[0]];
      assert next.code[c + 1 + |keys[1..]|..] == s.code[c + |keys|..];
      assert [keys[0]] + keys[1..] == keys;
      assert next.code[..c + 1] + keys[1..] + next.code[c + 1 + |keys[1..]|..]
          == s.code[..c] + keys + s.code[c + |keys|..];
    }
  }

  /** The digits that fill the buffer leave it holding them after what was
      already entered, raise the completion flag on the last one and rewind
      the position to 0. */
  lemma {:induction false} DigitsCompleteCode(s: GateState, keys: seq<char>, sirenOn: bool)
    requires Valid(s) && !s.incorrectCodeState
    requires AllDigits(keys)
    requires s.numberOfCodeChars + |keys| == |s.code|
    ensures EnterKeys(s, keys, sirenOn).codeComplete
    ensures EnterKeys(s, keys, sirenOn).numberOfCodeChars == 0
    ensures EnterKeys(s, keys, sirenOn).code == s.code[..s.numberOfCodeChars] + keys
    decreases |keys|
  {
    var c := s.numberOfCodeChars;
    var next := KeypadUpdate(s, keys[0], sirenOn);
    assert IsDigit(keys[0]);
    assert next.code == s.code[c := keys[0]];
    assert AllDigits(keys[1..]) by {
      forall i | 0 <= i < |keys[1..]| ensures IsDigit(keys[1..][i]) {
        assert keys[1..][i] == keys[i + 1];
      }
    }
    if |keys| == 1 {
      assert EnterKeys(s, keys, sirenOn) == EnterKeys(next, keys[1..], sirenOn) == next;
      assert next.code == s.code[..c] + keys;
    } else {
      DigitsCompleteCode(next, keys[1..], sirenOn);
      assert next.code[..c + 1] == s.code[..c] + [keys[0]];
      assert [keys[0]] + keys[1..] == keys;
      assert next.code[..c + 1] + keys[1..] == s.code[..c] + keys;
    }
  }

  /** From power-up, a code of `n` digits raises the completion flag on
      exactly the n-th digit, with the buffer holding the digits and the
      position back at 0; after fewer digits the flag is still down. */
  lemma CodeCompletesOnNthDigit(n: nat, keys: seq<char>, sirenOn: bool)
    requires n > 0 && |keys| == n && AllDigits(keys)
    ensures forall k :: 0 <= k < n ==> !EnterKeys(Init(n), keys[..k], sirenOn).codeComplete
    ensures EnterKeys(Init(n), keys, sirenOn).codeComplete
    ensures EnterKeys(Init(n), keys, sirenOn).code == keys
    ensures EnterKeys(Init(n), keys, sirenOn).numberOfCodeChars == 0
  {
    forall k | 0 <= k < n ensures !EnterKeys(Init(n), keys[..k], sirenOn).codeComplete {
      assert AllDigits(keys[..k]) by {
        forall i | 0 <= i < k ensures IsDigit(keys[..k][i]) {
          assert keys[..k][i] == keys[i];
        }
      }
      DigitsFillCode(Init(n), keys[..k], sirenOn);
    }
    DigitsCompleteCode(Init(n), keys, sirenOn);
    assert Init(n).code[..0] + keys == keys;
  }

  /** Under an incorrect code, two consecutive '#' keys from a zero count
      clear the buffer, the position, the completion flag and the incorrect
      flag; after the first one only the counter has moved. */
  lemma TwoHashesAcknowledge(s: GateState, siren1: bool, siren2: bool)
    requires Valid(s) && s.incorrectCodeState && s.numberOfHashKeyReleased == 0
    ensures KeypadUpdate(s, '#', siren1) == s.(numberOfHashKeyReleased := 1)
    ensures var after := KeypadUpdate(KeypadUpdate(s, '#', siren1), '#', siren2);
            && !after.incorrectCodeState && !after.codeComplete
            && after.numberOfCodeChars == 0 && after.numberOfHashKeyReleased == 0
            && after.code == Cleared(|s.code|)
  {
  }

  /** The hash counter is reset only when it reaches two. A single '#' that
      is followed by the code checker clearing and later re-raising the
      incorrect flag leaves a count of one behind, so the next incorrect
      code is acknowledged by a single '#'. */
  lemma StaleHashCountAcknowledgesOnce(s: GateState, siren1: bool, siren2: bool)
    requires Valid(s) && s.incorrectCodeState && s.numberOfHashKeyReleased == 0
    ensures var stale := IncorrectCodeStateWrite(IncorrectCodeStateWrite(KeypadUpdate(s, '#', siren1), false), true);
            && stale.incorrectCodeState
            && !KeypadUpdate(stale, '#', siren2).incorrectCodeState
  {
  }

  /** Nothing guards the buffer after completion: a digit arriving while
      the flag is still raised overwrites the first slot of the submitted
      code and the flag stays raised. */
  lemma DigitAfterCompletionOverwrites(s: GateState, key: char, sirenOn: bool)
    requires Valid(s) && |s.code| > 1
    requires s.codeComplete && s.numberOfCodeChars == 0 && !s.incorrectCodeState
    requires IsDigit(key)
    ensures KeypadUpdate(s, key, sirenOn).codeComplete
    ensures KeypadUpdate(s, key, sirenOn).code[0] == key
    ensures KeypadUpdate(s, key, sirenOn).code[1..] == s.code[1..]
    ensures KeypadUpdate(s, key, sirenOn).numberOfCodeChars == 1
  {
  }
}
