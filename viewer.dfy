/** The Log Viewer application object and its button handlers. Widgets, dialogs and message
    boxes are not modelled as such: the open-file dialog's answer and the result of reading the
    file are parameters, the text in the column dropdown is a field the user sets with
    `Choose`, and a message box is the `Outcome` a handler returns. */
module Viewer {

  import opened Wrappers
  import opened Paths
  import opened Selection
  import opened Plotting

  /** The text `save_graph` shows after exporting to `path`. */
  function SavedMessage(path: string): (o: Outcome)
    ensures o.Informed? && o.title == "Save Successful"
    ensures |path| <= |o.text| && o.text[|o.text| - |path|..] == path
  {
    Informed("Save Successful", "Graph saved as " + path)
  }

  /** The warning `remove_selection` shows when the dropdown text is not selected. */
  const NotSelected := Warned("Not Selected", "Please select a parameter to remove.")

  class DataViewerApp {
    /** `selected_columns_list`: the chosen columns, in the order they were added. */
    var selected: seq<string>
    /** `filename`: the last path segment of the loaded file, used as the chart title. */
    var filename: string
    /** The columns of `df`; None while no file has been loaded (`df` is None). */
    var frame: Option<seq<string>>
    /** `dropdown['values']`: the column names offered in the dropdown. */
    var catalog: seq<string>
    /** The text currently in the dropdown (`selected_columns.get()`), typed or picked. */
    var entry: string
    /** The axes `ax`. */
    var chart: Chart
    /** Every Add and Remove press so far, with the dropdown text it read. */
    ghost var log: seq<Edit>

    /** The list is well formed and is what replaying the logged presses on the initial `[]`
        gives, the dropdown offers exactly the loaded frame's columns, and the chart never
        shows anything but a prefix of the selection (all of it when the last redraw
        completed). */
    ghost predicate Valid()
      reads this
    {
      Consistent() &&
      IsPrefix(chart.series, selected) && (chart.legend ==> chart.series == selected)
    }

    /** The part of `Valid` that does not mention the chart. */
    ghost predicate Consistent()
      reads this
    {
      Wellformed(selected) && Logged() &&
      (frame.Some? ==> catalog == frame.value) &&
      (frame.None? ==> catalog == [] && filename == "")
    }

    /** The list is what replaying the logged presses on the initial `[]` gives, which by
        `ReplayKeepsWellformed` already makes it well formed. */
    ghost predicate Logged()
      reads this
    {
      selected == Replay([], log)
    }

    /** The state set up by `__init__`: no frame, nothing selected, no file name, an empty
        dropdown and an empty chart. */
    constructor ()
      ensures Valid()
      ensures selected == [] && filename == "" && frame == None
      ensures catalog == [] && entry == "" && chart == Blank && log == []
    {
      log := [];
      selected := [];
      filename := "";
      frame := None;
      catalog := [];
      entry := "";
      chart := Blank;
    }

    /** The user types into the dropdown or picks one of its values. */
    method Choose(text: string)
      requires Valid()
      modifies this
      ensures Valid()
      ensures entry == text
      ensures selected == old(selected) && filename == old(filename) && frame == old(frame)
      ensures catalog == old(catalog) && chart == old(chart) && log == old(log)
    {
      entry := text;
    }

    /** `load_file`: `path` is the open-file dialog's answer ("" when cancelled) and `parsed`
        the header row `pd.read_csv` reads from it (None when it raises). A successful load
        replaces the frame, the file name and the dropdown values; the selection, the dropdown
        text and the chart are never touched, and nothing is redrawn. */
    method LoadFile(path: string, parsed: Option<seq<string>>) returns (outcome: Outcome)
      requires Valid()
      modifies this
      ensures Valid()
      ensures selected == old(selected) && entry == old(entry) && chart == old(chart)
      ensures log == old(log)
      ensures path != "" && parsed.Some? ==>
        frame == parsed && filename == BaseName(path) && catalog == parsed.value && outcome == Quiet
      ensures path == "" || parsed.None? ==>
        frame == old(frame) && filename == old(filename) && catalog == old(catalog)
      ensures path == "" ==> outcome == Quiet
      ensures path != "" && parsed.None? ==> outcome == Raised(ReadFailed)
    {
      outcome := Quiet;
      if path != "" {
        if parsed.None? {
          outcome := Raised(ReadFailed);
          return;
        }
        frame := parsed;
        filename := BaseName(path);
        UpdateDropdown(parsed.value);
      }
    }

    /** `update_dropdown`: offer the given column names in the dropdown. */
    method UpdateDropdown(columns: seq<string>)
      modifies this`catalog
      ensures catalog == columns
      ensures selected == old(selected) && filename == old(filename) && frame == old(frame)
      ensures entry == old(entry) && chart == old(chart)
    {
      catalog := columns;
    }

    /** `add_selection`: a non-empty dropdown text that is not yet selected is appended, the
        dropdown is cleared and the chart redrawn; any other text changes nothing at all. */
    method AddSelection() returns (outcome: Outcome)
      requires Valid()
      modifies this
      ensures Valid()
      ensures selected == Added(old(selected), old(entry))
      ensures log == old(log) + [Add(old(entry))] && selected == Apply(old(selected), Add(old(entry)))
      ensures filename == old(filename) && frame == old(frame) && catalog == old(catalog)
      ensures old(entry) == "" || old(entry) in old(selected) ==>
        entry == old(entry) && chart == old(chart) && outcome == Quiet
      ensures old(entry) != "" && old(entry) !in old(selected) ==>
        && selected == old(selected) + [old(entry)]
        && entry == ""
        && chart == Redrawn(selected, frame, filename)
        && outcome == PlotOutcome(selected, frame)
    {
      var selection := entry;
      ReplayAppend([], log, Add(selection));
      log := log + [Add(selection)];
      if selection != "" && selection !in selected {
        selected := selected + [selection];
        entry := "";
        outcome := PlotData();
      } else {
        outcome := Quiet;
      }
    }

    /** `remove_selection`: a selected dropdown text is removed (the others keep their order),
        the dropdown is cleared and the chart redrawn; otherwise the "Not Selected" warning is
        shown and nothing changes. */
    method RemoveSelection() returns (outcome: Outcome)
      requires Valid()
      modifies this
      ensures Valid()
      ensures filename == old(filename) && frame == old(frame) && catalog == old(catalog)
      ensures log == old(log) + [Remove(old(entry))] && selected == Apply(old(selected), Remove(old(entry)))
      ensures old(entry) in old(selected) ==>
        && selected == Removed(old(selected), old(entry))
        && selected == Without(old(selected), old(entry))
        && entry == ""
        && chart == Redrawn(selected, frame, filename)
        && outcome == PlotOutcome(selected, frame)
      ensures old(entry) !in old(selected) ==>
        && selected == old(selected) && entry == old(entry) && chart == old(chart)
        && outcome == NotSelected
    {
      var selection := entry;
      if selection in selected {
        RemoveStep(log, selection);
        log := log + [Remove(selection)];
        selected := Removed(selected, selection);
        entry := "";
        assert Consistent();
        outcome := PlotData();
      } else {
        ReplayAppend([], log, Remove(selection));
        log := log + [Remove(selection)];
        outcome := NotSelected;
      }
    }

    /** `plot_data`: clear the axes; warn and stop when nothing is selected; otherwise draw the
        selected columns one by one in list order, then set the title and the legend. A column
        the frame lacks (or a missing frame) raises and ends the redraw where it is. */
    method PlotData() returns (outcome: Outcome)
      requires Consistent()
      modifies this`chart
      ensures Valid()
      ensures chart == Redrawn(selected, frame, filename)
      ensures outcome == PlotOutcome(selected, frame)
      ensures selected == old(selected) && filename == old(filename) && frame == old(frame)
      ensures catalog == old(catalog) && entry == old(entry)
    {
      chart := Blank;
      if selected == [] {
        outcome := NoSelection;
        return;
      }
      for i := 0 to |selected|
        invariant chart == Chart(selected[..i], "", false)
        invariant forall j :: 0 <= j < i ==> Plottable(selected[j], frame)
      {
        var column := selected[i];
        if frame.None? || column !in frame.value {
          DrawnPrefixStopsAt(selected, frame, i);
          outcome := Raised(Failure(column, frame));
          return;
        }
        chart := chart.(series := chart.series + [column]);
      }
      DrawnPrefixStopsAt(selected, frame, |selected|);
      chart := chart.(title := filename, legend := true);
      outcome := Drawn;
    }

    /** `save_graph`: `path` is the save dialog's answer ("" when cancelled). Exporting writes
        the current axes as they are and changes nothing in the application. */
    method SaveGraph(path: string) returns (saved: Option<Chart>, outcome: Outcome)
      ensures path == "" ==> saved == None && outcome == Quiet
      ensures path != "" ==> saved == Some(chart) && outcome == SavedMessage(path)
    {
      if path != "" {
        saved := Some(chart);
        outcome := SavedMessage(path);
      } else {
        saved := None;
        outcome := Quiet;
      }
    }
  }

  /** A session: load `logs/data.csv` with columns A and B, add A, press Add again, add B,
      then remove A, remove A again and remove B. Each step's chart and message follow from the
      handlers' contracts alone. */
  /** Removing a selected name from the replayed list is the same as replaying the press,
      drops only that name and keeps the list well formed. */
  lemma RemoveStep(log: seq<Edit>, x: string)
    requires x in Replay([], log) && Wellformed(Replay([], log))
    ensures Replay([], log + [Remove(x)]) == Removed(Replay([], log), x)
    ensures Removed(Replay([], log), x) == Without(Replay([], log), x)
    ensures Wellformed(Removed(Replay([], log), x))
  {
    var sel := Replay([], log);
    ReplayAppend([], log, Remove(x));
    RemovedKeepsWellformed(sel, x);
    RemovedKeepsOrder(sel, x);
  }

  method LoadAddSession() {
    var path := "logs/data.csv";
    assert path[5..] == "data.csv" && path[4] == '/' && '/' !in path[5..];
    BaseNameIsAfterLastSlash(path, 5);
    var app := new DataViewerApp();
    var o := app.LoadFile(path, Some(["A", "B"]));
    assert app.filename == "data.csv" && app.selected == [];
    AddSession(app);
  }

  /** The middle of the session: add A, then press Add again with the dropdown now empty. */
  method AddSession(app: DataViewerApp)
    requires app.Valid() && app.selected == [] && app.frame == Some(["A", "B"])
    requires app.filename == "data.csv"
    modifies app
  {
    app.Choose("A");
    assert Plottable("A", app.frame);
    var o := app.AddSelection();
    assert app.selected == ["A"] && app.entry == "";
    assert app.chart == Chart(["A"], "data.csv", true) && o == Drawn;

    o := app.AddSelection();
    assert o == Quiet && app.selected == ["A"];
    AddSecondSession(app);
  }

  /** Then add B, which is drawn after A. */
  method AddSecondSession(app: DataViewerApp)
    requires app.Valid() && app.selected == ["A"] && app.frame == Some(["A", "B"])
    requires app.filename == "data.csv"
    modifies app
  {
    app.Choose("B");
    assert Added(["A"], "B") == ["A", "B"];
    var o := app.AddSelection();
    assert app.selected == ["A", "B"];
    assert forall i :: 0 <= i < 2 ==> Plottable(app.selected[i], app.frame);
    assert app.chart == Chart(["A", "B"], "data.csv", true) && o == Drawn;

    RemoveSession(app);
  }

  /** The second half of the session: remove A, remove A again, remove B. */
  method RemoveSession(app: DataViewerApp)
    requires app.Valid() && app.selected == ["A", "B"] && app.frame == Some(["A", "B"])
    requires app.filename == "data.csv"
    modifies app
  {
    app.Choose("A");
    var o := app.RemoveSelection();
    assert app.selected == Without(["A", "B"], "A") == ["B"];
    assert app.chart == Chart(["B"], "data.csv", true) && o == Drawn;

    app.Choose("A");
    var before := app.chart;
    o := app.RemoveSelection();
    assert o == NotSelected && app.chart == before && app.selected == ["B"];

    app.Choose("B");
    o := app.RemoveSelection();
    assert app.selected == [] && app.chart == Blank && o == NoSelection;
  }

  /** Adding a column before any file is loaded is accepted, and the redraw it triggers stops
      on the missing frame; a later load keeps the selection and leaves the chart alone. */
  method AddBeforeLoadSession() {
    assert '/' !in "run.csv";
    var app := new DataViewerApp();
    app.Choose("speed");
    var o := app.AddSelection();
    assert app.selected == ["speed"];
    assert app.chart == Blank && o == Raised(NoFrame);

    o := app.LoadFile("run.csv", Some(["time", "speed"]));
    assert app.filename == "run.csv";
    assert app.selected == ["speed"] && app.chart == Blank && o == Quiet;
    ReloadSession(app);
  }

  /** Plotting after the load draws the selection. */
  method ReloadSession(app: DataViewerApp)
    requires app.Valid() && app.selected == ["speed"] && app.frame == Some(["time", "speed"])
    requires app.filename == "run.csv"
    modifies app
  {
    var o := app.PlotData();
    assert Plottable("speed", app.frame);
    assert app.chart == Chart(["speed"], "run.csv", true) && o == Drawn;
    MissingColumnSession(app);
  }

  /** Loading a file without the selected column keeps the old chart until the next redraw,
      which stops on the missing column with a cleared chart. */
  method MissingColumnSession(app: DataViewerApp)
    requires app.Valid() && app.selected == ["speed"]
    requires app.chart == Chart(["speed"], "run.csv", true)
    modifies app
  {
    var o := app.LoadFile("other.csv", Some(["time"]));
    assert app.chart == Chart(["speed"], "run.csv", true);
    o := app.PlotData();
    assert !Plottable("speed", app.frame);
    assert app.chart == Blank && o == Raised(MissingColumn("speed"));
  }
}
