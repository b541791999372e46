/** What `plot_data` leaves on the axes and what the user sees, as a function of the selection,
    the loaded data frame and the file name. The plotted numbers are not modelled: a series is
    known by its label, which is its column name. */
module Plotting {

  import opened Wrappers

  /** The axes: the labels of the drawn line series in drawing order, the title, and whether
      `ax.legend()` was called (only the last statement of a completed redraw does that). */
  datatype Chart = Chart(series: seq<string>, title: string, legend: bool)

  /** The axes after `ax.clear()`: no series, no title, no legend. */
  const Blank := Chart([], "", false)

  /** The exceptions a handler can end with. Tkinter reports an exception raised in a callback
      and keeps running, so the state is whatever the handler had done up to that point. */
  datatype Error =
    | ReadFailed               // `pd.read_csv` raised: the file could not be read as CSV
    | NoFrame                  // `self.df` is still None: `self.df.index` raises AttributeError
    | MissingColumn(column: string)  // `self.df[col]` raises KeyError

  /** How a handler ends: silently, with the canvas redrawn, with a message box, or with an
      exception. */
  datatype Outcome =
    | Quiet
    | Drawn
    | Warned(title: string, text: string)
    | Informed(title: string, text: string)
    | Raised(error: Error)

  /** The warning `plot_data` shows for an empty selection. */
  const NoSelection := Warned("No Selection", "Please select at least one parameter to plot.")

  /** A column can be drawn when a frame is loaded and has that column. */
  predicate Plottable(column: string, frame: Option<seq<string>>) {
    frame.Some? && column in frame.value
  }

  predicate IsPrefix(p: seq<string>, s: seq<string>) {
    |p| <= |s| && p == s[..|p|]
  }

  /** The columns the drawing loop gets through: the selection up to, not including, the first
      column that cannot be drawn. */
  function DrawnPrefix(selected: seq<string>, frame: Option<seq<string>>): (drawn: seq<string>)
    ensures IsPrefix(drawn, selected)
    ensures forall i :: 0 <= i < |drawn| ==> Plottable(drawn[i], frame)
    ensures |drawn| < |selected| ==> !Plottable(selected[|drawn|], frame)
    decreases |selected|
  {
    if selected == [] || !Plottable(selected[0], frame) then []
    else [selected[0]] + DrawnPrefix(selected[1..], frame)
  }

  /** The loop stops exactly at the first column that cannot be drawn. */
  lemma DrawnPrefixStopsAt(selected: seq<string>, frame: Option<seq<string>>, k: nat)
    requires k <= |selected|
    requires forall j :: 0 <= j < k ==> Plottable(selected[j], frame)
    requires k < |selected| ==> !Plottable(selected[k], frame)
    ensures DrawnPrefix(selected, frame) == selected[..k]
  {
  }

  /** The exception raised on reaching `column` in the drawing loop. */
  function Failure(column: string, frame: Option<seq<string>>): Error {
    if frame.None? then NoFrame else MissingColumn(column)
  }

  /** How `plot_data` ends: the "No Selection" warning for an empty list, a completed redraw
      when every selected column is in the frame, otherwise the exception for the first
      selected column that is not. */
  function PlotOutcome(selected: seq<string>, frame: Option<seq<string>>): (o: Outcome)
    ensures o == NoSelection <==> selected == []
    ensures o == Drawn <==> selected != [] && forall i :: 0 <= i < |selected| ==> Plottable(selected[i], frame)
    ensures o.Raised? <==> exists i :: 0 <= i < |selected| && !Plottable(selected[i], frame)
    ensures o.Raised? ==> exists k ::
      && 0 <= k < |selected|
      && (forall j :: 0 <= j < k ==> Plottable(selected[j], frame))
      && !Plottable(selected[k], frame)
      && o.error == Failure(selected[k], frame)
    ensures !o.Informed? && o != Quiet
  {
    if selected == [] then NoSelection
    else
      var drawn := DrawnPrefix(selected, frame);
      var k := |drawn|;
      if k == |selected| then
        assert drawn == selected;
        Drawn
      else
        assert forall j :: 0 <= j < k ==> selected[j] == drawn[j];
        assert !Plottable(selected[k], frame);
        Raised(Failure(selected[k], frame))
  }

  /** The axes after `plot_data`: cleared first in every case; when the redraw completes, one
      series per selected column in list order, titled with the file name; when it stops, the
      series drawn before the failing column and no title. */
  function Redrawn(selected: seq<string>, frame: Option<seq<string>>, filename: string): (c: Chart)
    ensures IsPrefix(c.series, selected)
    ensures c.legend <==> PlotOutcome(selected, frame) == Drawn
    ensures c.legend ==> c.series == selected && c.title == filename
    ensures !c.legend ==> c.title == "" && c.series == DrawnPrefix(selected, frame)
    ensures selected == [] ==> c == Blank
  {
    var drawn := DrawnPrefix(selected, frame);
    if selected != [] && |drawn| == |selected| then Chart(selected, filename, true)
    else Chart(drawn, "", false)
  }
}
