/**
 * The overview page's two pure helpers (src/frontend/views/overview.py):
 * how a secret is shown and which icon and style a status gets.
 */
module Overview {
  import opened Wrappers

  const NotConfigured := "não configurada"
  const Hidden := "***"

  /**
   * `_mask_value`: a missing or empty value reads "não configurada"; a
   * value of at most six characters is hidden entirely; a longer one
   * shows its first three and last two characters around "...".
   */
  function MaskValue(value: Option<string>): (r: string)
    ensures value.None? || value.value == [] ==> r == NotConfigured
    ensures value.Some? && 1 <= |value.value| <= 6 ==> r == Hidden
    ensures value.Some? && |value.value| > 6 ==>
              |r| == 8 && r[..3] == value.value[..3] && r[3..6] == "..." && r[6..] == value.value[|value.value| - 2..]
  {
    if value.None? || value.value == [] then NotConfigured
    else if |value.value| <= 6 then Hidden
    else
      var v := value.value;
      v[..3] + "..." + v[|v| - 2..]
  }

  /** What is shown of a long secret depends on five of its characters only. */
  lemma MaskShowsFiveCharacters(a: string, b: string)
    requires |a| > 6 && |b| > 6
    requires a[..3] == b[..3] && a[|a| - 2..] == b[|b| - 2..]
    ensures MaskValue(Some(a)) == MaskValue(Some(b))
  {
  }

  /** A secret is shown as it is only when it is "***" itself, or eight characters with "..." in the middle. */
  lemma MaskHidesValue(v: string)
    requires v != []
    requires MaskValue(Some(v)) == v
    ensures v == Hidden || (|v| == 8 && v[3..6] == "...")
  {
  }

  /** `_status_icon`: the icon and the style class of a status card. */
  function StatusIcon(status: string): (r: (string, string))
    ensures r.1 == "status-" + (if status in {"ok", "warn"} then status else "info")
    ensures status == "ok" ==> r.0 == "\U{1F7E2}"
    ensures status == "warn" ==> r.0 == "\U{1F7E0}"
    ensures status !in {"ok", "warn"} ==> r.0 == "\U{1F535}"
  {
    match status
    case "ok" => ("\U{1F7E2}", "status-ok")
    case "warn" => ("\U{1F7E0}", "status-warn")
    case _ => ("\U{1F535}", "status-info")
  }

  /** Two statuses get the same icon exactly when they get the same style. */
  lemma IconMatchesStyle(a: string, b: string)
    ensures StatusIcon(a).0 == StatusIcon(b).0 <==> StatusIcon(a).1 == StatusIcon(b).1
  {
  }
}
