/** The logger's globals and the five routines of its control core that update
    them in place. Pin levels and `millis()` readings are parameters; the WiFi and
    MQTT client calls are inputs (their status) or outputs (whether a call is made). */
module Firmware {
  import opened Clock
  import opened Encoder
  import opened StateMachine
  import opened Link
  import opened EventLog

  class Device {
    // Quadrature decoder (written by the edge interrupt)
    var encoderCounter: int
    var lastEncoded: Phase
    // Menu state machine
    var lastCounter: int
    var menuSelection: int
    var subMenuSelection: int
    var currentState: MenuState
    var lastButtonPress: Millis
    // Data log
    const dataLog: array<DataPoint>
    var logIndex: int
    // MQTT manager
    var lastMqttRetry: Millis

    /** The invariants the globals keep: the raw count is never negative, the
        selections stay on their menus, and the log index stays within the table. */
    ghost predicate Valid()
      reads this
    {
      encoderCounter >= 0 &&
      InRange(Ui()) &&
      dataLog.Length == MAX_RECORDS &&
      0 <= logIndex <= MAX_RECORDS
    }

    /** The decoder's globals as a value. */
    function Decoder(): Quadrature
      reads this
    {
      Quadrature(lastEncoded, encoderCounter)
    }

    /** The menu globals as a value. */
    function Ui(): UiState
      reads this
    {
      UiState(currentState, menuSelection, subMenuSelection, lastCounter, lastButtonPress)
    }

    /** The records saved so far, oldest first. */
    ghost function Records(): seq<DataPoint>
      reads this, dataLog
      requires Valid()
    {
      dataLog[..logIndex]
    }

    /** The globals' initial values: all zero, on the main menu, with an empty log. */
    constructor ()
      ensures Valid() && fresh(dataLog)
      ensures Decoder() == Quadrature(0, 0)
      ensures Ui() == Boot
      ensures Records() == []
      ensures lastMqttRetry == 0
    {
      encoderCounter, lastEncoded := 0, 0;
      lastCounter, menuSelection, subMenuSelection := 0, 0, 0;
      currentState := Menu;
      lastButtonPress := 0;
      dataLog := new DataPoint[MAX_RECORDS](_ => DataPoint(0, 0));
      logIndex := 0;
      lastMqttRetry := 0;
    }

    /** `updateEncoder`, run on an edge of either line with the levels of A and B. */
    method UpdateEncoder(a: bool, b: bool)
      requires Valid()
      modifies this`encoderCounter, this`lastEncoded
      ensures Valid()
      ensures Decoder() == Step(old(Decoder()), a, b)
    {
      var msb := if a then 1 else 0;
      var lsb := if b then 1 else 0;
      var encoded := 2 * msb + lsb;
      var sum := 4 * lastEncoded + encoded;
      if IsIncrement(sum) {
        encoderCounter := encoderCounter + 1;
      }
      if IsDecrement(sum) && encoderCounter > 0 {
        encoderCounter := encoderCounter - 1;
      }
      lastEncoded := encoded;
    }

    /** `handleEncoder`, run once per loop iteration. */
    method HandleEncoder()
      requires Valid()
      modifies this`menuSelection, this`subMenuSelection, this`lastCounter
      ensures Valid()
      ensures Ui() == Navigate(old(Ui()), encoderCounter)
    {
      var currentCounter := encoderCounter / 2;
      var delta := currentCounter - lastCounter;
      if delta != 0 {
        match currentState {
          case Menu =>
            if delta > 0 {
              menuSelection := 1;
            } else if delta < 0 {
              menuSelection := 0;
            }
          case Objective =>
            if delta > 0 {
              subMenuSelection := subMenuSelection + 1;
            } else if delta < 0 {
              subMenuSelection := subMenuSelection - 1;
            }
            if subMenuSelection > 2 {
              subMenuSelection := 2;
            }
            if subMenuSelection < 0 {
              subMenuSelection := 0;
            }
          case Subjective =>
        }
        lastCounter := currentCounter;
      }
    }

    /** `handleInput`, run once per loop iteration with the button level
        (`pressed` when the line reads LOW) and the clock. */
    method HandleInput(pressed: bool, now: Millis)
      requires Valid()
      modifies this`currentState, this`subMenuSelection, this`lastButtonPress
      ensures Valid()
      ensures Ui() == Confirm(old(Ui()), pressed, now)
    {
      if pressed {
        if Elapsed(now, lastButtonPress) > DEBOUNCE_MS {
          match currentState {
            case Menu =>
              if menuSelection == 0 {
                currentState := Objective;
                subMenuSelection := 0;
              } else {
                currentState := Subjective;
              }
            case Objective =>
              // items 0 (caffeine) and 1 (melatonin) lead nowhere yet
              if subMenuSelection == 2 {
                currentState := Menu;
              }
            case Subjective =>
          }
          lastButtonPress := now;
        }
      }
    }

    /** `saveData`: records the raw count, truncated to 16 bits, with the clock in
        the next free slot and advances the index; `published` tells whether the
        record was handed to the MQTT client, which never affects the log. */
    method SaveData(now: Millis, mqttUp: bool) returns (published: bool)
      requires Valid()
      modifies this`logIndex, dataLog
      ensures Valid()
      ensures Records() == Save(old(Records()), DataPoint(now, ToInt16(encoderCounter)))
      ensures old(logIndex) < MAX_RECORDS ==>
                logIndex == old(logIndex) + 1 &&
                dataLog[..] == old(dataLog[..])[old(logIndex) := DataPoint(now, ToInt16(encoderCounter))]
      ensures old(logIndex) >= MAX_RECORDS ==> logIndex == old(logIndex) && dataLog[..] == old(dataLog[..])
      ensures published <==> old(logIndex) < MAX_RECORDS && mqttUp
    {
      if logIndex >= MAX_RECORDS {
        return false;
      }
      dataLog[logIndex] := DataPoint(now, ToInt16(encoderCounter));
      published := mqttUp;
      logIndex := logIndex + 1;
    }

    /** `manageMQTT`, run once per loop iteration with the WiFi status, the MQTT
        status, the result `connect` would return, and the clock. */
    method ManageMqtt(wifiUp: bool, mqttUp: bool, connectOk: bool, now: Millis) returns (action: Action)
      requires Valid()
      modifies this`lastMqttRetry
      ensures Valid()
      ensures Outcome(action, lastMqttRetry) == Manage(wifiUp, mqttUp, connectOk, now, old(lastMqttRetry))
    {
      if !wifiUp {
        return Offline;
      }
      if mqttUp {
        return Serviced;
      }
      if Elapsed(now, lastMqttRetry) > MQTT_RETRY_INTERVAL {
        lastMqttRetry := now;
        action := Attempted(connectOk);
      } else {
        action := Waiting;
      }
    }
  }
}
