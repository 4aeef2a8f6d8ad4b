/**
 * The messages the sensors manager pushes to the browser through the
 * plugin message channel, and how the browser reads the status text back.
 */
module PluginMessages {
  import opened Optional
  import opened Dicts
  import opened SerialPorts

  /** The plugin's identifier, which tags every message it sends. */
  const Identifier: string := "airquality"

  /**
   * A message payload. The manager sends one of two shapes: the port
   * dictionary under `serial_ports`, or the read-loop status under
   * `sensors_read_thread_active_status`.
   */
  datatype PluginMessage = PluginMessage(serialPorts: Option<Dict<PortInfo>>, activeStatus: Option<string>)

  /** `JSON.parse` of a status text, defined for the two texts `true` and `false`. */
  function ParseStatus(text: string): Option<bool>
  {
    if text == "true" then Some(true)
    else if text == "false" then Some(false)
    else None
  }

  /** `str(status).lower()`: the status as the text the browser parses back to it. */
  function StatusText(active: bool): (text: string)
    ensures text != ""
    ensures ParseStatus(text) == Some(active)
  {
    if active then "true" else "false"
  }

  /** The status texts are the only texts the browser parses to a status, and each parses back to its own. */
  lemma ParseStatusInverse(text: string)
    ensures ParseStatus(text).Some? ==> StatusText(ParseStatus(text).value) == text
    ensures ParseStatus(text).None? ==> text != StatusText(true) && text != StatusText(false)
  {
  }

  function StatusMessage(active: bool): PluginMessage
  {
    PluginMessage(None, Some(StatusText(active)))
  }

  function SerialPortsMessage(details: Dict<PortInfo>): PluginMessage
  {
    PluginMessage(Some(details), None)
  }

  /** `n` copies of `message`, in a row. */
  function Repeat(message: PluginMessage, n: nat): (r: seq<PluginMessage>)
    ensures |r| == n
  {
    if n == 0 then [] else Repeat(message, n - 1) + [message]
  }

  /** Publishing `m` copies and then `n` more publishes `m + n` copies. */
  lemma {:induction false} RepeatAppend(log: seq<PluginMessage>, message: PluginMessage, m: nat, n: nat)
    ensures log + Repeat(message, m) + Repeat(message, n) == log + Repeat(message, m + n)
  {
    if n > 0 {
      RepeatAppend(log, message, m, n - 1);
      calc {
        log + Repeat(message, m) + Repeat(message, n);
        log + Repeat(message, m) + (Repeat(message, n - 1) + [message]);
        (log + Repeat(message, m) + Repeat(message, n - 1)) + [message];
        (log + Repeat(message, m + n - 1)) + [message];
        log + (Repeat(message, m + n - 1) + [message]);
      }
    } else {
      assert Repeat(message, n) == [];
    }
  }
}
