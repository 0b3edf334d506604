/** The colour tags the status pane shows for a probe and for a service. */
module Display {

  /** fmt.Sprintf("[%s]⬤ [-]", color): a coloured disc in the terminal UI's markup. */
  function Icon(color: string): (icon: string)
    ensures |icon| == |color| + 7
    ensures icon[..1] == "[" && icon[|icon| - 6..] == "]\U{2B24} [-]"
    ensures icon[1..|icon| - 6] == color
  {
    "[" + color + "]\U{2B24} [-]"
  }

  /** Different colours give different icons: the colour can be read back. */
  lemma IconInjective(a: string, b: string)
    requires Icon(a) == Icon(b)
    ensures a == b
  {
  }

  /** statusIcon: green when up, red when down, and nothing else. */
  function StatusIcon(up: bool): (icon: string)
    ensures icon == Icon("lightgreen") || icon == Icon("red")
    ensures up <==> icon == Icon("lightgreen")
  {
    var color := if up then "lightgreen" else "red";
    Icon(color)
  }

  /** unicode.ToLower for ASCII letters. */
  function LowerChar(c: char): char
  {
    if 'A' <= c <= 'Z' then (c as int - 'A' as int + 'a' as int) as char else c
  }

  /** strings.ToLower, character by character. */
  function ToLower(s: string): (r: string)
    ensures |r| == |s|
    ensures forall i | 0 <= i < |s| :: r[i] == LowerChar(s[i])
  {
    if s == [] then [] else [LowerChar(s[0])] + ToLower(s[1..])
  }

  /** Lower-casing twice is lower-casing once. */
  lemma ToLowerIdempotent(s: string)
    ensures ToLower(ToLower(s)) == ToLower(s)
  {
    var once := ToLower(s);
    assert forall i | 0 <= i < |s| :: ToLower(once)[i] == LowerChar(LowerChar(s[i])) == once[i];
  }

  /** A string without upper-case ASCII letters is its own lower case. */
  lemma ToLowerFixes(s: string)
    requires forall i | 0 <= i < |s| :: !('A' <= s[i] <= 'Z')
    ensures ToLower(s) == s
  {
  }

  /** The seven service states the node agent reports, with their colours. */
  const StateColors: map<string, string> := map[
    "running" := "lightgreen",
    "finished" := "darkgreen",
    "waiting" := "yellow",
    "stopped" := "orange",
    "skipped" := "grey",
    "failed" := "red",
    "unknown" := "darkgrey"]

  /** The colour a state is shown in: its entry in StateColors, dark grey otherwise. */
  function ColorOf(state: string): string
  {
    if state in StateColors then StateColors[state] else "darkgrey"
  }

  /** serviceStatusIcon: the colour of a service state, whatever its case;
      states the table does not know are logged and shown dark grey. */
  function ServiceStatusIcon(status: string): (icon: string)
    ensures icon == Icon(ColorOf(ToLower(status)))
  {
    var s := ToLower(status);
    var color :=
      if s == "running" then "lightgreen"
      else if s == "finished" then "darkgreen"
      else if s == "waiting" then "yellow"
      else if s == "stopped" then "orange"
      else if s == "skipped" then "grey"
      else if s == "failed" then "red"
      else if s == "unknown" then "darkgrey"
      else "darkgrey";
    Icon(color)
  }

  /** Case does not matter: a state and its lower case show the same icon. */
  lemma ServiceStatusIconIgnoresCase(status: string)
    ensures ServiceStatusIcon(ToLower(status)) == ServiceStatusIcon(status)
  {
    ToLowerIdempotent(status);
  }

  /** The mapping is total: a state outside the table shows like "unknown". */
  lemma UnrecognisedStateShowsUnknown(status: string)
    requires ToLower(status) !in StateColors
    ensures ServiceStatusIcon(status) == ServiceStatusIcon("unknown")
  {
    assert ToLower("unknown") == "unknown";
    assert ColorOf(ToLower("unknown")) == "darkgrey" == ColorOf(ToLower(status));
  }

  /** Two states with different colours in the table show different icons. */
  lemma DistinctColorsShowDistinctly(a: string, b: string)
    requires ColorOf(ToLower(a)) != ColorOf(ToLower(b))
    ensures ServiceStatusIcon(a) != ServiceStatusIcon(b)
  {
    if ServiceStatusIcon(a) == ServiceStatusIcon(b) {
      IconInjective(ColorOf(ToLower(a)), ColorOf(ToLower(b)));
    }
  }
}
