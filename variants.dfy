/** The repository ships five near-identical copies of the autoscroll engine.
    They differ only in a calibration constant and a few feature flags, which
    this module collects so that one model covers every copy. */
module Variants {

  /** What distinguishes one copy of the engine from another.
      - k: calibration constant that maps the pixel-distance curve into the
        host's scroll units (0.0001 on macOS, 0.00005 on Windows);
      - vertical: the engine reads only the vertical displacement and gives
        no direction feedback (autoscroll_qt_v2.py);
      - showAtPoint: the show notification carries the press coordinates
        (autoscroll_xy_axis.py, autoscroll_qt_v2.py) instead of none;
      - persistsStartMinimized: preset records carry the start_minimized key
        besides the five scrolling tunables. */
  datatype Variant = Variant(k: real, vertical: bool, showAtPoint: bool, persistsStartMinimized: bool)

  /** main.py picks its calibration constant from the operating system. */
  function MainPy(darwin: bool): (v: Variant)
    ensures v.k == if darwin then 0.0001 else 0.00005
    ensures !v.vertical && !v.showAtPoint && v.persistsStartMinimized
  {
    Variant(if darwin then 0.0001 else 0.00005, false, false, true)
  }

  /** mac/autoscroll_mac_ultimate.py */
  const MacUltimate: Variant := Variant(0.0001, false, false, true)

  /** mac/autoscroll_mac.py: five-key preset records */
  const MacBasic: Variant := Variant(0.0001, false, false, false)

  /** autoscroll_xy_axis.py: no presets, show carries the point */
  const XyAxis: Variant := Variant(0.00005, false, true, false)

  /** autoscroll_qt_v2.py: vertical only, no direction feedback, no presets */
  const QtV2: Variant := Variant(0.00005, true, true, false)

  /** The mac "ultimate" copy is main.py as it runs on macOS. */
  lemma MacUltimateIsMainOnDarwin()
    ensures MacUltimate == MainPy(true)
    ensures MacUltimate.k == 0.0001
  {
  }

  /** The basic mac copy scrolls as the ultimate one and differs only in its
      five-key preset records. */
  lemma MacBasicDiffersOnlyInRecords()
    ensures MacBasic == MacUltimate.(persistsStartMinimized := false)
    ensures MacBasic.k == 0.0001
  {
  }

  /** autoscroll_xy_axis.py uses the Windows constant of main.py and sends
      the press point with the show notification. */
  lemma XyAxisUsesWindowsConstant()
    ensures XyAxis.k == MainPy(false).k == 0.00005
    ensures !XyAxis.vertical && XyAxis.showAtPoint
  {
  }

  /** autoscroll_qt_v2.py is the xy-axis copy restricted to vertical scrolling. */
  lemma QtV2IsVerticalXyAxis()
    ensures QtV2 == XyAxis.(vertical := true)
    ensures QtV2.k == 0.00005
  {
  }
}
