# gh4a list adapters in Dafny

A model of two list adapters of the gh4a Android client for GitHub.

**Notification list** (module `Notifications`). The list shows repository headers and the notifications under each header.
- A header is an item without a notification.
- Each item is a `NotificationHolder` object: a repository, an optional notification, a mutable read flag and a flag that marks the last notification of its repository.
- The adapter holds the items in display order.
- `markAsRead(repository, notification)` marks items read in place, using a three-way match:
  - both arguments absent marks everything;
  - otherwise an item is marked when its repository equals the given one;
  - or when its notification equals the given one.
  After the scan the adapter signals one data-set change.
- The adapter also decides:
  - each row's view type and layout;
  - the icon for a notification's subject kind;
  - what binding writes into a row: alpha, action-icon visibility, the "mark as read" menu entry, the icon, the title, and the bottom padding and margin.
- A header row forwards a tap on its action icon to the host's `OnNotificationActionCallback`. A notification row's tap opens its popup menu, and the menu's two choices are forwarded to the callback. The model records these calls as a trace of `MarkAsReadCalled` / `UnsubscribeCalled` events.

**Release list** (module `Releases`). Each row shows a release's name, a label for its kind and its creation text. The label is draft, pre-release or final, checked in that order of priority.

How it is structured:
- `MarkedAsRead` gives the item values after the bulk mark-as-read. The lemmas about it state the properties of that operation.
- The in-place method `NotificationAdapter.MarkAsRead` is proved to produce exactly `MarkedAsRead` of the old item values, and to signal the change once.
- The same holder object may appear at two positions of the list. The proof allows this: whether a holder is selected depends only on fields that never change.
- `RowUpdateFor` states the decisions of `onBindViewHolder`. The `OnBindViewHolder` method is proved to write them into the row. A header row returns early, so binding one leaves the notification widgets untouched.

Two facts about the code that the model keeps:
- When both a repository and a notification are given, `markAsRead` marks the union of the two selections (NotificationAdapter.java:57-59).
- A read header is dimmed like any other read row, and its action icon is hidden (NotificationAdapter.java:89-93).

Java's `equals` on repositories and notifications is modelled as `==` on the `Repository` and `Notification` datatypes. The classes that define `equals` are not part of this model, so this assumes that `equals` compares exactly these fields: owner login and name for a repository, id and subject for a notification. The adapter never reads a notification's `id`; the field exists only to give a notification an identity of its own.

## Model

| member | source | states |
|---|---|---|
| `Notifications.MarkedAsRead` | src/com/gh4a/adapter/NotificationAdapter.java:53-62 | the bulk update keeps the list's length (the items, one by one in list order) |
| `Notifications.MarkedAsReadAt` | src/com/gh4a/adapter/NotificationAdapter.java:54-61 | item i after the scan is item i with its flag set when the three-way match selects it |
| `Notifications.MarkedAsReadOnlySetsFlags` | src/com/gh4a/adapter/NotificationAdapter.java:57-60 | only isRead changes; it ends true exactly when it was true or the item is selected, so read items stay read and unselected items keep their flag; length, order, repository, notification and grouping flag are unchanged |
| `Notifications.MarkEverything` | src/com/gh4a/adapter/NotificationAdapter.java:56-57 | with both arguments absent every item ends read |
| `Notifications.MarkRepositoryGroup` | src/com/gh4a/adapter/NotificationAdapter.java:58 | with a repository given every item of that repository ends read, headers included |
| `Notifications.MarkMatchingNotification` | src/com/gh4a/adapter/NotificationAdapter.java:59 | with a notification given every item holding it ends read |
| `Notifications.MarkOneNotificationExactly` | src/com/gh4a/adapter/NotificationAdapter.java:57-60 | marking only a notification: an item ends read iff it was read or holds that notification; headers are left exactly as they were |
| `Notifications.MarkOneRepositoryExactly` | src/com/gh4a/adapter/NotificationAdapter.java:57-60 | marking only a repository: an item ends read iff it was read or belongs to that repository |
| `Notifications.HeaderMarkedOnlyThroughRepository` | src/com/gh4a/adapter/NotificationAdapter.java:57-60 | an unread header that ends read was reached by the mark-everything call or by its own repository, never by the notification clause |
| `Notifications.MarkedAsReadIdempotent` | src/com/gh4a/adapter/NotificationAdapter.java:60 | marking twice with the same arguments equals marking once |
| `Notifications.NotificationAdapter.MarkAsRead` | src/com/gh4a/adapter/NotificationAdapter.java:53-65 | the loop updates the holders in place so that the item values equal MarkedAsRead of the old ones; the list itself is unchanged; exactly one data-set change follows |
| `Notifications.ViewTypeOf` | src/com/gh4a/adapter/NotificationAdapter.java:78-83 | an item's type is the header type iff it has no notification, the default type otherwise |
| `Notifications.NotificationAdapter.GetItemViewType` | src/com/gh4a/adapter/NotificationAdapter.java:77-83 | returns the header type exactly for items without a notification |
| `Notifications.LayoutFor` | src/com/gh4a/adapter/NotificationAdapter.java:70-72 | the header layout is used exactly for the header view type |
| `Notifications.NotificationAdapter.OnCreateViewHolder` | src/com/gh4a/adapter/NotificationAdapter.java:67-75 | a fresh row with the layout of its view type and the adapter's callback, not yet tagged |
| `Notifications.IconResId` | src/com/gh4a/adapter/NotificationAdapter.java:127-139 | "Issue", "PullRequest" and "Commit" give the issue, pull-request and commit icons; every other kind gives -1 |
| `Notifications.RowUpdateFor` | src/com/gh4a/adapter/NotificationAdapter.java:86-125 | a header row's action icon is gone iff the item is read; a notification row's mark-as-read entry is visible iff unread; read rows are dimmed; the icon is visible iff its id is positive, so an unknown kind hides it; padding and margin are non-zero iff the item is the last of its repository (for non-zero dimensions) |
| `Notifications.NotificationAdapter.OnBindViewHolder` | src/com/gh4a/adapter/NotificationAdapter.java:85-125 | tags the row with the item and writes RowUpdateFor into it; a header leaves the notification widgets untouched; the icon resource changes only for a positive id |
| `Notifications.ClickGesture` | src/com/gh4a/adapter/NotificationAdapter.java:168-178 | a tap on the action icon marks a header read and opens the menu of a notification row; nothing else calls back |
| `Notifications.ViewHolder.OnClick` | src/com/gh4a/adapter/NotificationAdapter.java:167-178 | a header tap adds exactly one markAsRead call for the tagged item; a notification-row tap shows the menu once and calls nothing |
| `Notifications.MenuGesture` | src/com/gh4a/adapter/NotificationAdapter.java:184-193 | the mark_as_read and unsubscribe entries select the matching callback; any other id selects nothing |
| `Notifications.ViewHolder.OnMenuItemClick` | src/com/gh4a/adapter/NotificationAdapter.java:180-194 | returns true iff the entry is one of the two; then exactly the matching callback is called once with the tagged item; otherwise no call |
| `Notifications.ActionCallback.MarkAsRead` | src/com/gh4a/adapter/NotificationAdapter.java:33 | records one markAsRead call for the item |
| `Notifications.ActionCallback.Unsubscribe` | src/com/gh4a/adapter/NotificationAdapter.java:35 | records one unsubscribe call for the item |
| `Notifications.ViewHolder.constructor` | src/com/gh4a/adapter/NotificationAdapter.java:143-157 | a row keeps the callback it is created with and starts untagged |
| `Notifications.NotificationAdapter.constructor` | src/com/gh4a/adapter/NotificationAdapter.java:43-51 | the adapter keeps its callback and the two dimensions read at construction |
| `Releases.FormatReleaseType` | src/com/gh4a/adapter/ReleaseAdapter.java:34-42 | draft gives the draft label even for a pre-release; a non-draft pre-release gives the pre-release label; otherwise final; always one of the three |
| `Releases.LabelDeterminesKind` | src/com/gh4a/adapter/ReleaseAdapter.java:34-42 | with distinct strings, each label is shown iff the release has that kind under the priority order |
| `Releases.DraftWinsOverPreRelease` | src/com/gh4a/adapter/ReleaseAdapter.java:35-37 | a release both draft and pre-release is labelled draft and not pre-release |
| `Releases.ReleaseAdapter.OnBindViewHolder` | src/com/gh4a/adapter/ReleaseAdapter.java:27-32 | the title is the release name, the type field the FormatReleaseType label, the date field the given creation text |
| `Releases.ReleaseAdapter.constructor` | src/com/gh4a/adapter/ReleaseAdapter.java:16-18 | the adapter keeps the three localized kind labels its context provides |
| `Releases.ViewHolder.constructor` | src/com/gh4a/adapter/ReleaseAdapter.java:45-50 | a new row's title, type and date fields start empty |

## Left out

- `Notifications.NotificationAdapter.OnBindViewHolder`: does not model the timestamp text. `StringUtils.formatRelativeTime` is not part of this model.
- Android view machinery is not modelled: layout inflation, `findViewById`, `PopupMenu` construction, `CardView` and `MarginLayoutParams` plumbing. The row object keeps the values the adapter decides. For the card it keeps only the bottom padding and the bottom margin; the zero left, top and right sides written at NotificationAdapter.java:118 and :123 are not kept.
- The alpha values 0.5 and 1 are floats. They are the two-valued `Alpha` (`Dimmed` / `Opaque`).
- `UiUtils.resolveDrawable` is not part of this model. The icons it resolves are the `IconTheme` parameter.
- The two card dimensions read from resources are constructor parameters of the adapter.
- The localized release strings are the `ReleaseStrings` parameter. The relative creation text is a parameter of the release binding.
- A new row's widget state comes from layout XML that is not part of this model. The row constructor picks fixed initial values.
- `ViewHolder.OnClick` requires a tagged row when the click comes from the action icon. The source dereferences the tag there, and the framework binds a row before showing it. `OnMenuItemClick` passes the tag through unchecked, so the model lets it be absent.
- The `RootAdapter` base class is not part of this model. Its item list is the `items` sequence and its default view type is `DefaultViewType`.
- `NotificationHolder` (com.gh4a.loader) is not part of this model. Its repository, notification and grouping flag are fixed fields here; only `isRead` changes.
- The egit `Repository`, `Notification` and `Release` classes are reduced to the fields the adapters read, except the notification's update time and the release's creation time, plus an `id` for a notification. The two times only feed the relative-time text (see the timestamp lines above). The `id` is never read by the adapter; it only gives a notification an identity. Their `equals` is assumed to compare exactly these fields.
- `TimelineFactory` is left out. It only returns a constant title, a constant one-element tab list and a new fragment.
- Threading is left out. The adapters run on the UI thread only.
