# Log Viewer: the column-selection state machine

Log Viewer (`main.py`) is a small Tkinter desktop tool. It opens a CSV file, lets the user add
and remove column names in a dropdown, and draws each selected column as a line series against
the row index, titled with the file's name. It can also save the chart as an image. This
project models the one part of it with state worth reasoning about: the `DataViewerApp`
handlers and the fields they update.

- `selected_columns_list` is an ordered list of chosen names, appended by Add and shrunk by
  Remove.
- `filename` is the last `/`-separated segment of the opened path.
- `df` is the loaded data frame, known here only by its column names.
- The dropdown has values (the column catalog) and a text (what the user typed or picked).
- The axes are kept as the labels of the drawn series, the title, and whether the legend was
  drawn.

Modules:

- `Wrappers` (`wrappers.dfy`): `Option`.
- `Paths` (`paths.dfy`): Python's `str.split` on one character, its inverse `Join`, and
  `BaseName`, the expression `file_path.split("/")[-1]`.
- `Selection` (`selection.dfy`): the list edits made by Add (`Added`) and Remove (`Removed`,
  Python's `list.remove`), a reference definition `Without`, and a replay of any session of
  edits.
- `Plotting` (`plotting.dfy`): the chart and outcome that `plot_data` produces, as functions of
  the selection, the frame and the file name.
- `Viewer` (`viewer.dfy`): the class `DataViewerApp`. Its fields are the ones above and its
  methods are the handlers; each method's `ensures` gives the new state in terms of the old
  state and the functions above. A ghost field `log` records every Add and Remove press, and
  the list is always `Replay([], log)`. The object invariant `Valid()` holds after every
  handler: the list has no duplicates and no empty name, the dropdown offers the loaded frame's
  columns, and the chart shows a prefix of the selection (all of it after a completed
  redraw). Two client sessions replay the handlers using only these contracts:
  `LoadAddSession` (continued by `AddSession`, `AddSecondSession` and `RemoveSession`) and
  `AddBeforeLoadSession` (continued by `ReloadSession` and `MissingColumnSession`).

Inputs and outputs:

- The open and save dialogs' answers are string parameters; `""` means cancelled, which is
  how the code's `if file_path:` test reads it.
- What `pd.read_csv` makes of the file is a parameter: its header row, or `None` when it
  raises.
- A message box is the `Outcome` a handler returns (`Warned` or `Informed` with the exact
  title and text). An exception that ends a handler is `Raised`.

Exceptions are part of the model, because the code does not guard them. Tkinter reports an
exception raised in a button callback and keeps running, so the state is whatever the
handler had done before the exception. The model covers three such cases:

- `pd.read_csv` fails: nothing has changed yet.
- A redraw with no file loaded: `self.df.index` raises `AttributeError` after the axes
  were cleared.
- A selected column missing from the frame: `self.df[col]` raises `KeyError` after the
  earlier columns were drawn, with no title or legend.

`ax.plot` can also raise for a column that is present but whose values matplotlib cannot
draw. The model does not cover that case (see "Left out").

Three behaviours of `main.py` a reader might not expect:

- `add_selection` does not check the name against the loaded columns. Any non-empty
  dropdown text that is not yet selected is appended, even before a file is loaded.
- `plot_data` clears the axes before it checks for an empty selection. An empty selection
  therefore leaves blank axes with the "No Selection" warning, rather than the old chart.
  Removing the last selected column is one way to reach this.
- Loading a file keeps the current selection unchanged, and it does not redraw the chart.
  The old series and the old title stay until the next Add, Remove or Plot. That redraw
  raises `KeyError` if a selected column is missing from the new file.

## Model

| member | source | states |
|---|---|---|
| Paths.Split | main.py:58 | `str.split` on one character gives at least one piece, no piece holds the separator, and a string without the separator is one piece equal to itself |
| Paths.JoinSplit | main.py:58 | splitting loses nothing: joining the pieces with the separator gives back the original path |
| Paths.SplitJoin | main.py:58 | the converse round trip: splitting a join of separator-free pieces gives the same pieces |
| Paths.SplitLast | main.py:58 | the last piece of a split is a suffix of the string that is either all of it or follows a separator |
| Paths.BaseName | main.py:58 | `file_path.split("/")[-1]` holds no `/`, is a suffix of the path, is the whole path when there is no `/`, and otherwise directly follows a `/` |
| Paths.BaseNameIsAfterLastSlash | main.py:58 | any suffix without `/` that starts the path or follows a `/` is the base name, so the base name is exactly the text after the last `/` |
| Selection.Added | main.py:64-67 | the Add edit changes the list exactly when the text is non-empty and absent, and then appends it at the end; a non-empty name is present afterwards; a well-formed list stays well formed |
| Selection.Removed | main.py:74 | `list.remove` shortens the list by one and takes exactly one occurrence of the name out of its multiset, adding no name |
| Selection.FirstIndex | main.py:74 | the position `list.remove` looks for: it holds the name, and no earlier position does |
| Selection.RemovedAtFirstIndex | main.py:74 | `list.remove` deletes the first occurrence: the result is the list before that position followed by the list after it |
| Selection.Without | main.py:73-74 | reference definition of removal: the name is absent afterwards, every other name is kept, and no duplicates appear |
| Selection.RemovedKeepsOrder | main.py:73-74 | on a list without duplicates, removing a present name equals `Without`: the other names keep their relative order |
| Selection.RemovedKeepsWellformed | main.py:73-74 | a successful remove keeps the list free of duplicates and empty names, and the removed name is gone |
| Selection.AddedTwice | main.py:66-67 | adding the same valid name twice in a row gives the same list as adding it once, with the name occurring exactly once |
| Selection.RemoveThenAddMovesToEnd | main.py:64-76 | removing a selected name and adding it again keeps the others in order and puts the name last |
| Selection.Apply | main.py:64-78 | one Add press is `Added`; a Remove of an absent name changes nothing; a Remove of a present name takes one occurrence out; no press brings in a name other than an Add's own text |
| Selection.Replay | main.py:64-78 | replaying no edits leaves the list as it is; after any session every selected name was there at the start or was the dropdown text of some Add press (Add does not consult the loaded columns) |
| Selection.ReplayAppend | main.py:64-78 | replaying a session followed by one more press equals applying that press to the replayed list, so the session can be recorded one press at a time |
| Selection.ReplayKeepsWellformed | main.py:51-78 | from the initial `[]`, no session of Add and Remove presses ever yields a duplicate or an empty name |
| Plotting.DrawnPrefix | main.py:86-87 | the drawing loop gets through the selection up to the first column the frame lacks (or not at all when no frame is loaded), in list order |
| Plotting.DrawnPrefixStopsAt | main.py:86-87 | the drawn part is exactly the selection before the first undrawable column |
| Plotting.PlotOutcome | main.py:80-92 | the "No Selection" warning exactly for an empty list; with the frame known only by its column names, a completed redraw exactly when every selected column is in the frame, and otherwise the exception for the first selected column that is not |
| Plotting.Redrawn | main.py:80-92 | the axes are cleared in every case; a completed redraw shows one series per selected column in list order, titled with the file name, with a legend; a stopped redraw shows only the columns drawn before the failure and no title; an empty selection leaves blank axes |
| Viewer.SavedMessage | main.py:98 | the save confirmation is an information box titled "Save Successful" whose text ends with the saved path |
| Viewer.DataViewerApp.constructor | main.py:29-52 | the initial state: no frame, empty selection, empty file name, empty dropdown and empty chart, with the object invariant established |
| Viewer.DataViewerApp.Choose | main.py:29-30 | the user's typing or picking sets only the dropdown text |
| Viewer.DataViewerApp.LoadFile | main.py:54-59 | a cancelled dialog changes nothing; a failed read raises and changes nothing; a successful one sets the frame, the base name of the path and the dropdown values, and never touches the selection, the dropdown text or the chart |
| Viewer.DataViewerApp.UpdateDropdown | main.py:61-62 | the dropdown offers exactly the given column names, and nothing else changes |
| Viewer.DataViewerApp.AddSelection | main.py:64-69 | the press is appended to the log and the list becomes `Added(old list, text)`, which is `Apply` of that press; on a change the name is appended, the dropdown text is reset to "" and the chart is redrawn from the new list; otherwise the list, text and chart are unchanged and nothing is shown; the invariant is kept |
| Viewer.DataViewerApp.RemoveSelection | main.py:71-78 | the press is appended to the log and the list becomes `Apply` of that press; a selected text is removed with the other names in order, the text is reset and the chart redrawn; otherwise the "Not Selected" warning is shown and the list, text and chart are unchanged; the invariant is kept |
| Viewer.DataViewerApp.PlotData | main.py:80-92 | the loop leaves the axes equal to `Redrawn` of the selection, frame and file name and returns `PlotOutcome`; it changes no other field and establishes the invariant |
| Viewer.DataViewerApp.SaveGraph | main.py:94-98 | a cancelled dialog exports nothing and shows nothing; otherwise the current axes are exported unchanged and the confirmation is shown; no state changes |

## Left out

- Widget construction, layout, fonts and colours (main.py:9-48) and the `mainloop` entry point (main.py:100-103): pure user interface.
- The dialogs and message boxes themselves: the dialogs' answers are parameters and the boxes are the returned `Outcome`.
- CSV parsing by `pd.read_csv`: a foreign library. Its result is a parameter, the header row or `None` on failure. The rows and values of the frame are not modelled.
- The plotted numbers and the rendering by matplotlib: a foreign library working on floating-point data. A series is known by its label only.
- The on-screen repaint by `canvas.draw()`: the model tracks the axes, which `savefig` exports. The legend flag records that a redraw ran to its end.
- SaveGraph: does not model `figure.savefig` raising for an unwritable path or an unsupported extension. Image encoding is a foreign library call.
- Plotting.PlotOutcome: does not model `ax.plot` raising for a column that is present but whose values it rejects (for example a `TypeError` on text data), because the frame is reduced to its column names. The same holds for `Plotting.Redrawn` and `Viewer.DataViewerApp.PlotData`, which treat such a redraw as completing.
- LoadFile: the whole loaded frame is reduced to its column names, so `df` and the dropdown values are both represented by the same header row.
