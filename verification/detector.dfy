/**
 * The main loop's detection state: the 'c' key arms detection, the debounce
 * test admits a candidate, an admission records the plate and time,
 * reconciles the plate and disarms detection.
 */
module Detector {
  import opened Wrappers
  import opened Candidate
  import opened Reconciliation

  /** Seconds within which the same plate is not admitted again. */
  const Cooldown: real := 5.0

  /** The key code that arms detection: ord('c'). */
  const DetectKey: int := 99

  /** The state the loop keeps between frames for the debounce test. */
  datatype Gate = Gate(lastPlate: Option<string>, lastTime: real, armed: bool)

  /** At start-up: no plate seen, time 0, detection not armed. */
  const Initial: Gate := Gate(None, 0.0, false)

  /** A candidate is admitted if it differs from the last plate or the cooldown has passed. */
  predicate Admits(g: Gate, plate: string, now: real) {
    Some(plate) != g.lastPlate || now - g.lastTime > Cooldown
  }

  datatype Step = Step(admitted: bool, next: Gate)

  /**
   * One frame: the key may arm detection; an armed frame with a candidate the
   * gate admits records it and disarms; any other frame keeps the gate.
   */
  function GateStep(g: Gate, pressed: bool, now: real, candidate: Option<string>): Step {
    var armed := g.armed || pressed;
    if armed && candidate.Some? && Admits(g, candidate.value, now) then
      Step(true, Gate(candidate, now, false))
    else
      Step(false, g.(armed := armed))
  }

  /**
   * A frame admits exactly when detection is armed (before or by this
   * frame's key), there is a candidate, and the candidate differs from the
   * last plate or comes more than the cooldown after it. An admission records
   * plate and time and disarms; a rejection keeps plate and time and leaves
   * detection armed as it was or as the key made it.
   */
  lemma GateStepSpec(g: Gate, pressed: bool, now: real, candidate: Option<string>)
    ensures var s := GateStep(g, pressed, now, candidate);
      (s.admitted <==> (g.armed || pressed) && candidate.Some?
                       && (candidate != g.lastPlate || now - g.lastTime > 5.0))
      && (s.admitted ==> s.next.lastPlate == candidate && s.next.lastTime == now && !s.next.armed)
      && (!s.admitted ==> s.next.lastPlate == g.lastPlate && s.next.lastTime == g.lastTime
                          && s.next.armed == (g.armed || pressed))
  {
  }

  /**
   * While no plate has been recorded, a candidate in an armed frame (armed
   * earlier or by this frame's key) is always admitted.
   */
  lemma FirstPlateAdmitted(g: Gate, pressed: bool, now: real, plate: string)
    requires g.lastPlate.None? && (g.armed || pressed)
    ensures GateStep(g, pressed, now, Some(plate)).admitted
  {
  }

  /** The plate the scan of a frame's OCR output yields, if any. */
  function FramePlate(ocr: OcrOutcome): Option<string> {
    match SelectFrame(ocr)
    case None => None
    case Some(d) => Some(d.plate)
  }

  /** Runs detect_plate_easyocr on one frame and keeps the plate only when a box came with it. */
  method Scan(ocr: OcrOutcome) returns (plate: Option<string>)
    ensures plate == FramePlate(ocr)
  {
    var p, box := DetectPlate(ocr);
    plate := if p.Some? && box.Some? then p else None;
  }

  /** One frame of input to the gate: was 'c' pressed, the time, the frame's plate if any. */
  datatype Frame = Frame(pressed: bool, now: real, candidate: Option<string>)

  /** The gate after a sequence of frames. */
  function After(g: Gate, frames: seq<Frame>): Gate
    decreases |frames|
  {
    if frames == [] then g
    else
      var last := frames[|frames| - 1];
      GateStep(After(g, frames[..|frames| - 1]), last.pressed, last.now, last.candidate).next
  }

  /** Whether frame i of the sequence is admitted. */
  predicate AdmittedAt(g: Gate, frames: seq<Frame>, i: nat)
    requires i < |frames|
  {
    GateStep(After(g, frames[..i]), frames[i].pressed, frames[i].now, frames[i].candidate).admitted
  }

  lemma {:induction false} AfterStep(g: Gate, frames: seq<Frame>, i: nat)
    requires i < |frames|
    ensures After(g, frames[..i + 1])
         == GateStep(After(g, frames[..i]), frames[i].pressed, frames[i].now, frames[i].candidate).next
  {
    assert frames[..i + 1][..i] == frames[..i];
  }

  /**
   * Until the first admission, the gate from start-up has recorded no plate
   * and is armed exactly when 'c' was pressed on some earlier frame.
   */
  lemma {:induction false} BeforeFirstAdmission(frames: seq<Frame>, j: nat)
    requires j <= |frames|
    requires forall k :: 0 <= k < j ==> !AdmittedAt(Initial, frames, k)
    ensures After(Initial, frames[..j]).lastPlate.None?
    ensures After(Initial, frames[..j]).armed <==> exists k :: 0 <= k < j && frames[k].pressed
  {
    if j == 0 {
      assert frames[..0] == [];
    } else {
      BeforeFirstAdmission(frames, j - 1);
      AfterStep(Initial, frames, j - 1);
      assert !AdmittedAt(Initial, frames, j - 1);
      if After(Initial, frames[..j]).armed && !frames[j - 1].pressed {
        var k :| 0 <= k < j - 1 && frames[k].pressed;
      }
    }
  }

  /**
   * From start-up, the first frame with a candidate at or after a press of
   * 'c' is admitted, even when the press came on an earlier frame.
   */
  lemma FirstCandidateAfterPressAdmitted(frames: seq<Frame>, j: nat)
    requires j < |frames|
    requires forall k :: 0 <= k < j ==> !AdmittedAt(Initial, frames, k)
    requires exists k :: 0 <= k <= j && frames[k].pressed
    requires frames[j].candidate.Some?
    ensures AdmittedAt(Initial, frames, j)
  {
    BeforeFirstAdmission(frames, j);
    if !frames[j].pressed {
      var k :| 0 <= k <= j && frames[k].pressed;
      assert k < j;
    }
  }

  /**
   * After an admission at frame i, frames that are not admitted keep the
   * recorded plate and time, and leave detection disarmed unless 'c' is pressed.
   */
  lemma {:induction false} QuietAfterAdmission(g: Gate, frames: seq<Frame>, i: nat, j: nat)
    requires i < j <= |frames|
    requires AdmittedAt(g, frames, i)
    requires forall k :: i < k < j ==> !AdmittedAt(g, frames, k)
    ensures After(g, frames[..j]).lastPlate == frames[i].candidate
    ensures After(g, frames[..j]).lastTime == frames[i].now
    ensures After(g, frames[..j]).armed ==> exists k :: i < k < j && frames[k].pressed
  {
    if j == i + 1 {
      AfterStep(g, frames, i);
    } else {
      QuietAfterAdmission(g, frames, i, j - 1);
      AfterStep(g, frames, j - 1);
      assert !AdmittedAt(g, frames, j - 1);
    }
  }

  /**
   * The debounce guarantee: when the same plate is admitted twice with no
   * admission in between, more than the cooldown separates the two frames.
   */
  lemma NoRepeatWithinCooldown(g: Gate, frames: seq<Frame>, i: nat, j: nat)
    requires i < j < |frames|
    requires AdmittedAt(g, frames, i) && AdmittedAt(g, frames, j)
    requires forall k :: i < k < j ==> !AdmittedAt(g, frames, k)
    requires frames[i].candidate == frames[j].candidate
    ensures frames[j].now - frames[i].now > Cooldown
  {
    QuietAfterAdmission(g, frames, i, j);
  }

  /**
   * Detection is single-shot: between two admissions the operator pressed
   * 'c' again, so each press admits at most one candidate.
   */
  lemma OnePressOneAdmission(g: Gate, frames: seq<Frame>, i: nat, j: nat)
    requires i < j < |frames|
    requires AdmittedAt(g, frames, i) && AdmittedAt(g, frames, j)
    requires forall k :: i < k < j ==> !AdmittedAt(g, frames, k)
    ensures exists k :: i < k <= j && frames[k].pressed
  {
    QuietAfterAdmission(g, frames, i, j);
    if !frames[j].pressed {
      assert After(g, frames[..j]).armed;
    }
  }

  /**
   * The terminal's main loop state, one frame at a time: the debounce gate,
   * the armed flag and the status message.
   */
  class Terminal {
    var lastPlate: Option<string>
    var lastTime: real
    var armed: bool
    var status: Status

    constructor ()
      ensures lastPlate == None && lastTime == 0.0 && !armed && status == Prompt
    {
      lastPlate, lastTime, armed, status := None, 0.0, false, Prompt;
    }

    function State(): Gate
      reads this
    {
      Gate(lastPlate, lastTime, armed)
    }

    /**
     * One pass of the loop body. `key` is the masked key code, `ocr` what the
     * OCR call yields for this frame, `query`, `exitReply` and `entryReply`
     * what the ledger answers, `clock` the wall-clock time. Returns the ledger
     * transaction made and the notifications posted, in order.
     */
    method Tick(key: int, now: real, ocr: OcrOutcome, query: Query, exitReply: Reply, entryReply: Reply, clock: string)
      returns (call: LedgerCall, sent: seq<Notification>)
      modifies this
      ensures State() == GateStep(old(State()), key == DetectKey, now, FramePlate(ocr)).next
      ensures GateStep(old(State()), key == DetectKey, now, FramePlate(ocr)).admitted ==>
        Outcome(call, status, sent) == Reconcile(FramePlate(ocr).value, query, exitReply, entryReply, clock)
      ensures !GateStep(old(State()), key == DetectKey, now, FramePlate(ocr)).admitted ==>
        status == old(status) && call == NoCall && sent == []
    {
      call, sent := NoCall, [];
      if key == DetectKey {
        armed := true;
      }
      if armed {
        var plate := Scan(ocr);
        if plate.Some? && (plate != lastPlate || now - lastTime > Cooldown) {
          lastPlate := plate;
          lastTime := now;
          var o := Reconcile(plate.value, query, exitReply, entryReply, clock);
          status, call, sent := o.status, o.call, o.notes;
          armed := false;
        }
      }
    }
  }
}
