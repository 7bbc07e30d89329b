# MMClient core, modelled in Dafny

MMClient is a small desktop mail reader. It keeps one lazily opened,
reused IMAP connection per configured account. On "Reload" it fetches the
newest `max_mails` messages of every account's inbox and lists them, one table
per account. On "Display" it shows the message selected most recently in any
table, with the date, senders, subject and a de-HTML-ed body.

This project models the bookkeeping behind that:

- `Connection` (connection.dfy) is the `AccountConnection` class. Its two
  fields hold the store and folder handles. `GetMessages` runs the login and
  open handshake only when a field is null, then counts down from the inbox's
  message count. `Close` releases the folder, then the store. Each method is
  proved against a pure step function (`Fetch`, `CloseHandles`). The
  connection's properties are lemmas about those functions: the window's size
  and order, when the handshake runs, reuse, idempotent close, and the state a
  failed handshake leaves behind.
- `Manager` (manager.dfy) is the `AccountManager` class. It holds one
  connection per account. `GetMessages` walks them in order and puts each
  window into an insertion-ordered map keyed by account. `Close` walks them in
  order too. Both stop at the first exception. The walks are specified in
  closed form (`FetchAll`, `CloseAll`).
- `LinkedMaps` (linked_map.dfy) is `java.util.LinkedHashMap` as a sequence of
  entries. Putting a key already present replaces its value in place. Equal
  account records therefore collapse into one entry.
- `Extractor` (extractor.dfy) covers `getDate`, `getFrom`, `getSubject` and the
  type dispatch of `getContent`, with the HTML sanitizer as a function
  parameter.
- `Tables` (tables.dfy) covers the row list of a message table, the selection a
  table remembers, and the rule "Display" uses to pick a table and row.
- `MaxField` (max_field.dfy) covers the fetch limit and its update from the
  text field through `Integer.parseInt`.
- `Mail` (mail.dfy) is the part of the mail library the client touches. A store
  is a connected flag, a folder an open flag. `Folder.getMessage(i)` yields
  position `i`. The remote side of one call is a `Server` value: whether it
  accepts the login, whether the inbox opens, and the inbox's message count.
- `Outcomes` (outcomes.dfy) holds `Option`, `Result` and `Outcome`; an
  exception becomes an `Err`/`Fail` value.

Some behaviours of the code are easy to misread; the model keeps them as
written:

- A failed open is not undone. The store is assigned before `connect` and the
  folder before `open` (Main.java:43-46), and nothing clears them when either
  throws. After a failed open both fields are set and the folder is closed, so
  the next fetch skips the handshake and throws whenever there is anything to
  read, and `close` throws as well (`FailedOpenSticks`). A failed login leaves
  only the store set, so the next fetch runs the handshake again
  (`FailedLoginRetries`).
- A close that throws is not undone either. When the connection to the server
  has dropped, closing the open folder throws (Main.java:60) before either
  field is cleared, so both stay set with the folder now closed: the next
  fetch skips the handshake and throws whenever there is anything to read,
  and every later close throws (`DroppedCloseSticks`).
- Closing the manager stops at the first connection whose `close` throws
  (Main.java:94-96): later connections are left open (`CloseAllFailFast`).
- Every part of a multipart body goes through the HTML sanitizer, whatever its
  own type: there is no test on the part before parsing (Main.java:256-263,
  `Extractor.GetContent`).

## Model

| member | source | states |
|---|---|---|
| Mail.GetMessage | src/main/java/Main.java:52 | a closed folder refuses `getMessage`; an open one yields the message at the requested 1-based position |
| Connection.WindowSize | src/main/java/Main.java:48-54 | a fetch returns `min(max_mails, count)` positions, none for a non-positive limit; the window is empty iff the inbox is empty or the limit is not positive |
| Connection.WindowNewestFirst | src/main/java/Main.java:51-52 | position `j` of the window is `count - j`: every position lies in `1..count`, and they strictly decrease |
| Connection.WindowIsNewestSet | src/main/java/Main.java:51-52 | the window holds exactly the `k` newest positions, `count - k + 1 .. count` |
| Connection.CollectNewest | src/main/java/Main.java:48-54 | the counting-down loop returns the window; it throws iff the folder is not open and the window is not empty |
| Connection.FetchHandshakeIff | src/main/java/Main.java:42-54 | the handshake runs iff a field is null; a returning fetch yields the window; one that read something leaves a connected store and an open folder |
| Connection.FetchReturnsWindow | src/main/java/Main.java:48-54 | whatever state it starts from, a fetch that returns yields the window of the server's current count |
| Connection.FetchReusesHandles | src/main/java/Main.java:42-47 | with both fields set, a fetch runs no handshake and keeps both handles |
| Connection.SecondFetchReuses | src/main/java/Main.java:41-55 | from unconnected, a first fetch that returns runs the handshake; a second fetch runs none, keeps the handles and returns its own window |
| Connection.StepsPreserveCoherent | src/main/java/Main.java:42-47 | fetch and close keep a folder only behind a connected store |
| Connection.FailedOpenSticks | src/main/java/Main.java:45-46 | a failed open leaves a connected store and a closed folder in place: later fetches skip the handshake and throw when there is anything to read, and close throws |
| Connection.DroppedCloseSticks | src/main/java/Main.java:59-62 | a close on a live connection whose link dropped throws and leaves a connected store and a closed folder: later fetches skip the handshake and throw when there is anything to read, and every later close throws |
| Connection.FailedLoginRetries | src/main/java/Main.java:43-44 | a failed login leaves an unconnected store and no folder, so the next fetch runs the handshake again |
| Connection.CloseResets | src/main/java/Main.java:57-67 | close throws iff a folder is held that is not open (a closed-folder error) or an open one while the connection is down (a lost-connection error); a close that throws leaves both handles in place with the folder not open, and one that returns leaves both fields null |
| Connection.CloseIdempotent | src/main/java/Main.java:59-66 | a second close after one that returned does nothing and returns, whether or not the connection is up |
| Connection.CloseThenFetchReconnects | src/main/java/Main.java:57-67 | after a close that returned, the next fetch runs the handshake |
| Connection.AccountConnection.constructor | src/main/java/Main.java:33-39 | a new connection holds its account and has both fields null |
| Connection.AccountConnection.GetMessages | src/main/java/Main.java:41-55 | the new fields and the result are those of the fetch step, and a handshake is counted exactly when it runs |
| Connection.AccountConnection.Close | src/main/java/Main.java:57-67 | the new fields and the result are those of the close step for the given state of the link |
| LinkedMaps.PutKeys | src/main/java/Main.java:88 | a put keeps the key order and appends only a key not yet present |
| LinkedMaps.PutGet | src/main/java/Main.java:88 | after a put the key maps to the new value and every other key to what it mapped to before |
| LinkedMaps.PutAllKeys | src/main/java/Main.java:86-89 | the keys after a series of puts are the distinct keys put, in first-put order |
| LinkedMaps.PutAllLastWins | src/main/java/Main.java:86-89 | each key maps to the value of its last put |
| LinkedMaps.PutAllDistinct | src/main/java/Main.java:86-89 | with pairwise distinct keys, entry `i` is the `i`-th key and value put |
| LinkedMaps.PutAllSize | src/main/java/Main.java:86-89 | the map has at most one entry per put, and exactly one per put iff the keys are distinct |
| Manager.FirstFetchFailure | src/main/java/Main.java:87-89 | the index of the first connection whose fetch throws, every earlier one returning; the connection count if none throws |
| Manager.Reached | src/main/java/Main.java:87-89 | how many connections a fetch walk calls: every one before the last returned, and when the walk stops early the last one threw |
| Manager.FetchAllCoherent | src/main/java/Main.java:85-91 | a fetch walk keeps every connection's folder behind a connected store |
| Manager.AccountManager.FetchConnection | src/main/java/Main.java:88 | the call on connection k moves it, alone, from the walk's state before k to the state after k, counting its handshake |
| Manager.FetchAllMap | src/main/java/Main.java:85-91 | a walk that returns yields every window put under its account, in connection order |
| Manager.FetchAllKeys | src/main/java/Main.java:85-91 | the map's keys are the accounts in order with repeats collapsed; at most one entry per connection, exactly one iff the accounts are distinct |
| Manager.FetchAllValues | src/main/java/Main.java:85-91 | each account maps to the window of its last connection; with distinct accounts entry `j` is account `j` with its window |
| Manager.FetchAllFailFast | src/main/java/Main.java:85-91 | the walk returns iff no fetch throws, and then every connection has fetched; otherwise it throws the first connection's exception and later connections are untouched |
| Manager.FirstCloseFailure | src/main/java/Main.java:94-96 | the index of the first connection whose close throws, every earlier one returning; the connection count if none throws |
| Manager.CloseAllFailFast | src/main/java/Main.java:93-97 | the close walk returns iff no close throws, and then every connection is unconnected; otherwise it throws the first failing connection's exception, the earlier connections are unconnected, the failing one holds what its failed close left and all later ones keep their handles |
| Manager.CloseAllCoherent | src/main/java/Main.java:93-97 | a close walk keeps every connection's folder behind a connected store |
| Manager.AccountManager.CloseConnection | src/main/java/Main.java:95 | the call on connection k moves it, alone, from the walk's state before k to the state after k |
| Manager.CloseAllIdempotent | src/main/java/Main.java:93-97 | a second close walk after one that returned changes nothing and returns, whatever the state of the links |
| Manager.AccountManager.constructor | src/main/java/Main.java:73-79 | one fresh, unconnected connection per account, connection `i` holding account `i`, none shared, no handshake yet |
| Manager.AccountManager.GetAccountCount | src/main/java/Main.java:81-83 | the count equals the number of connections |
| Manager.AccountManager.GetMessages | src/main/java/Main.java:85-91 | the new connection states and the result are those of the fetch walk over the old states; each connection the walk reached counts its handshake, the others keep their count |
| Manager.AccountManager.Close | src/main/java/Main.java:93-97 | the new connection states and the result are those of the close walk over the old states and the given state of each link; no handshake count changes |
| Extractor.FlattenAppend | src/main/java/Main.java:238-242 | appending two runs of pieces gives the concatenation of their texts |
| Extractor.FlattenCut | src/main/java/Main.java:238-242 | cutting the list of pieces anywhere cuts the joined text at the same place |
| Extractor.FlattenSplit | src/main/java/Main.java:238-242 | each piece sits between the pieces before and after it, with nothing inserted |
| Extractor.FlattenChars | src/main/java/Main.java:238-242 | a character occurs in the joined text iff it occurs in some piece |
| Extractor.FromTextLayout | src/main/java/Main.java:237-243 | the sender line throws iff the sender array is null; no senders give the empty line; each sender's rendering sits between the ones before and after it, with no separator |
| Extractor.GetFrom | src/main/java/Main.java:237-243 | the appending loop yields the sender line |
| Extractor.GetContent | src/main/java/Main.java:249-267 | text/plain gives its text; multipart gives every part sanitized, appended in order; any other type gives the empty string |
| Extractor.MultipartBodySplits | src/main/java/Main.java:256-264 | splitting the part list splits the multipart body at the same place |
| Extractor.MultipartBodyHasNoMarkup | src/main/java/Main.java:256-264 | if the sanitizer never emits an angle bracket, no multipart body contains one |
| Tables.Summarize | src/main/java/Main.java:233-247 | a row is built iff the date and the sender array are present, and it holds the date, the sender line and the subject |
| Tables.MultiLineTableModel.AddRow | src/main/java/Main.java:151-154 | the row is appended when it can be built; otherwise the rows stay as they were and the exception is returned |
| Tables.MultiLineTableModel.ClearRows | src/main/java/Main.java:156-159 | no rows remain |
| Tables.MultiLineTableModel.GetRowCount | src/main/java/Main.java:161-164 | the count equals the number of rows |
| Tables.MultilineTable.constructor | src/main/java/Main.java:205-209 | a new table has an empty model and no selection (index and time -1) |
| Tables.MultilineTable.UpdateLastIndex | src/main/java/Main.java:224-227 | the table remembers the selected row and the current time |
| Tables.SelectForDisplay | src/main/java/Main.java:356-367 | the table whose selection was made most recently, the earliest on a tie, with its row; -1 iff no table has a row selected at a time after -1 |
| MaxField.ParseInt | src/main/java/Main.java:331 | a parsed value always lies in the 32-bit range |
| MaxField.ParseToDecimal | src/main/java/Main.java:273 | parsing the text `Integer.toString` printed for a 32-bit value gives that value back |
| MaxField.BlankNeverParses | src/main/java/Main.java:329-331 | blank text never parses |
| MaxField.UpdatedCases | src/main/java/Main.java:327-335 | the limit becomes the parsed value when the text parses and otherwise stays; a 32-bit limit stays 32-bit |
| MaxField.Settings.constructor | src/main/java/Main.java:231 | the limit starts at 6 |
| MaxField.Settings.Update | src/main/java/Main.java:327-335 | the new limit is the update of the old one by the field's text |

## Left out

- The Swing user interface is not modelled: layout, the cell renderer, listeners, and the frame and its window-closing hook (Main.java:166-203, 211-222, 269-326, 384-407). It is event-driven UI code.
- The reload and display handlers are not modelled, apart from the display selection loop. They are glue between the manager, the tables and the text area (Main.java:337-352, 368-382).
- Loading `accounts.conf` with Typesafe Config is not modelled; the manager takes the account list as a parameter (Main.java:99-145). It is file I/O and a foreign parser.
- The mail session, TLS and IMAP traffic are not modelled. One call's remote behaviour is the `Server` parameter, and a store or folder is a flag.
- Connection.AccountConnection: the store and folder are values in the fields, not shared library objects. The store object left behind by a failed login is a value `Store(false)`.
- Connection.CloseHandles: `Store.close` never fails in the model. Whether the link to the server is up is a parameter, and a `Folder.close` that throws on a dropped link is taken to leave that folder closed. Exceptions from `getMessageCount` and `getMessage` other than a closed folder are not modelled, nor is a count of -1.
- Connection.CollectNewest: the limit is read once per call. The source reads the volatile field on every iteration, so another thread could change it mid-loop.
- Connection.AccountConnection.Close: the log line printed on close is not modelled.
- Tables.MultilineTable.UpdateLastIndex: the clock and the table's selected row are parameters.
- Tables.MultiLineTableModel: the change notifications to the table view are not modelled, nor are the column accessors (`getColumnCount`, `getValueAt`, `getColumnName`, `getColumnClass`).
- Extractor.GetContent: Jsoup parsing, the line-break markers and cleaning are one sanitizer function parameter. Exceptions while reading a body are not modelled: `getContent` does not catch them and they reach the caller (Main.java:249-267), but the model's result is a plain string.
- Extractor.Message: `Date.toString` and `Address.toString` are carried as the strings they render.
- MaxField.ParseInt: digits outside ASCII, which `Integer.parseInt` also accepts, are not modelled.
