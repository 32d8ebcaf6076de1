/**
 * The notification list of the home screen: rows are either repository headers
 * (no notification) or notifications of that repository. The adapter can mark
 * items read in bulk, decides the row kind and the per-row affordances, and
 * forwards the gestures of a row to a two-method callback.
 *
 * Models src/com/gh4a/adapter/NotificationAdapter.java.
 */
module Notifications {

  datatype Option<T> = None | Some(value: T)

  /** A repository; `==` stands for `Repository.equals`, assumed to compare
      exactly these fields. */
  datatype Repository = Repository(ownerLogin: string, name: string)

  /** The subject of a notification: its kind ("Issue", ...) and its title. */
  datatype Subject = Subject(kind: string, title: string)

  /** A notification; `==` stands for `Notification.equals`, assumed to
      compare exactly these fields. The adapter never reads `id`: it only
      gives a notification an identity of its own. */
  datatype Notification = Notification(id: string, subject: Subject)

  const SubjectIssue: string := "Issue"
  const SubjectPullRequest: string := "PullRequest"
  const SubjectCommit: string := "Commit"

  /** The value of one list item at one moment: what a NotificationHolder holds. */
  datatype Entry = Entry(
    repository: Repository,
    notification: Option<Notification>,
    isRead: bool,
    isLastRepositoryNotification: bool)

  /*---------------------------------------------------------------------------
   * Bulk mark-as-read, as a function on item values
   *-------------------------------------------------------------------------*/

  /** The three-way match of markAsRead: both arguments absent selects every
      item; otherwise an item is selected by its repository or by its
      notification (a header, which has no notification, only by the former). */
  predicate Selected(e: Entry, repository: Option<Repository>, notification: Option<Notification>)
  {
    (repository.None? && notification.None?)
    || (repository.Some? && e.repository == repository.value)
    || (e.notification.Some? && e.notification == notification)
  }

  function MarkEntry(e: Entry, repository: Option<Repository>, notification: Option<Notification>): Entry
  {
    if Selected(e, repository, notification) then e.(isRead := true) else e
  }

  /** The list after markAsRead(repository, notification), item by item in list order. */
  function MarkedAsRead(entries: seq<Entry>, repository: Option<Repository>, notification: Option<Notification>): (marked: seq<Entry>)
    ensures |marked| == |entries|
  {
    if entries == [] then []
    else [MarkEntry(entries[0], repository, notification)] + MarkedAsRead(entries[1..], repository, notification)
  }

  lemma {:induction false} MarkedAsReadAt(entries: seq<Entry>, repository: Option<Repository>, notification: Option<Notification>, i: int)
    requires 0 <= i < |entries|
    ensures MarkedAsRead(entries, repository, notification)[i] == MarkEntry(entries[i], repository, notification)
  {
    if i > 0 {
      MarkedAsReadAt(entries[1..], repository, notification, i - 1);
    }
  }

  /** markAsRead only ever sets isRead, and sets it exactly on the selected items:
      an item already read stays read, an unselected item keeps its flag, and
      length, order, repositories, notifications and grouping are unchanged. */
  lemma {:induction false} MarkedAsReadOnlySetsFlags(entries: seq<Entry>, repository: Option<Repository>, notification: Option<Notification>)
    ensures |MarkedAsRead(entries, repository, notification)| == |entries|
    ensures forall i :: 0 <= i < |entries| ==>
      MarkedAsRead(entries, repository, notification)[i].repository == entries[i].repository &&
      MarkedAsRead(entries, repository, notification)[i].notification == entries[i].notification &&
      MarkedAsRead(entries, repository, notification)[i].isLastRepositoryNotification == entries[i].isLastRepositoryNotification &&
      (MarkedAsRead(entries, repository, notification)[i].isRead <==> entries[i].isRead || Selected(entries[i], repository, notification))
  {
    forall i | 0 <= i < |entries|
      ensures MarkedAsRead(entries, repository, notification)[i] == MarkEntry(entries[i], repository, notification)
    {
      MarkedAsReadAt(entries, repository, notification, i);
    }
  }

  /** Passing neither a repository nor a notification marks everything read. */
  lemma {:induction false} MarkEverything(entries: seq<Entry>)
    ensures forall i :: 0 <= i < |entries| ==> MarkedAsRead(entries, None, None)[i].isRead
  {
    MarkedAsReadOnlySetsFlags(entries, None, None);
  }

  /** With a repository given, every item of that repository ends read, its
      header included, whatever the notification argument is. */
  lemma {:induction false} MarkRepositoryGroup(entries: seq<Entry>, repository: Repository, notification: Option<Notification>)
    ensures forall i :: 0 <= i < |entries| && entries[i].repository == repository ==>
      MarkedAsRead(entries, Some(repository), notification)[i].isRead
  {
    MarkedAsReadOnlySetsFlags(entries, Some(repository), notification);
  }

  /** With a notification given, every item holding that notification ends read,
      whatever the repository argument is. */
  lemma {:induction false} MarkMatchingNotification(entries: seq<Entry>, repository: Option<Repository>, notification: Notification)
    ensures forall i :: 0 <= i < |entries| && entries[i].notification == Some(notification) ==>
      MarkedAsRead(entries, repository, Some(notification))[i].isRead
  {
    MarkedAsReadOnlySetsFlags(entries, repository, Some(notification));
  }

  /** Marking one notification: an item ends read exactly when it was read or
      holds that notification; headers are never selected this way. */
  lemma {:induction false} MarkOneNotificationExactly(entries: seq<Entry>, notification: Notification)
    ensures forall i :: 0 <= i < |entries| ==>
      (MarkedAsRead(entries, None, Some(notification))[i].isRead <==>
        entries[i].isRead || entries[i].notification == Some(notification))
    ensures forall i :: 0 <= i < |entries| && entries[i].notification.None? ==>
      MarkedAsRead(entries, None, Some(notification))[i] == entries[i]
  {
    MarkedAsReadOnlySetsFlags(entries, None, Some(notification));
    forall i | 0 <= i < |entries|
      ensures MarkedAsRead(entries, None, Some(notification))[i] == MarkEntry(entries[i], None, Some(notification))
    {
      MarkedAsReadAt(entries, None, Some(notification), i);
    }
  }

  /** Marking one repository: an item ends read exactly when it was read or
      belongs to that repository. */
  lemma {:induction false} MarkOneRepositoryExactly(entries: seq<Entry>, repository: Repository)
    ensures forall i :: 0 <= i < |entries| ==>
      (MarkedAsRead(entries, Some(repository), None)[i].isRead <==>
        entries[i].isRead || entries[i].repository == repository)
  {
    MarkedAsReadOnlySetsFlags(entries, Some(repository), None);
  }

  /** A header that markAsRead turns read was selected through its repository,
      or by the mark-everything call: the notification clause never reaches it. */
  lemma {:induction false} HeaderMarkedOnlyThroughRepository(entries: seq<Entry>, repository: Option<Repository>, notification: Option<Notification>, i: int)
    requires 0 <= i < |entries|
    requires entries[i].notification.None? && !entries[i].isRead
    requires MarkedAsRead(entries, repository, notification)[i].isRead
    ensures (repository.None? && notification.None?) || repository == Some(entries[i].repository)
  {
    MarkedAsReadAt(entries, repository, notification, i);
  }

  /** Applying markAsRead twice with the same arguments is the same as once. */
  lemma {:induction false} MarkedAsReadIdempotent(entries: seq<Entry>, repository: Option<Repository>, notification: Option<Notification>)
    ensures MarkedAsRead(MarkedAsRead(entries, repository, notification), repository, notification)
         == MarkedAsRead(entries, repository, notification)
  {
    if entries != [] {
      var once := MarkedAsRead(entries, repository, notification);
      assert once[1..] == MarkedAsRead(entries[1..], repository, notification);
      MarkedAsReadIdempotent(entries[1..], repository, notification);
    }
  }

  /*---------------------------------------------------------------------------
   * Row kind, icon and the decisions of onBindViewHolder
   *-------------------------------------------------------------------------*/

  /** VIEW_TYPE_NOTIFICATION_HEADER, or the base adapter's default type. */
  datatype ViewType = HeaderViewType | DefaultViewType

  /** row_notification_header or row_notification. */
  datatype Layout = HeaderLayout | NotificationLayout

  /** The two alpha values a row uses: 0.5 for read items, 1 otherwise. */
  datatype Alpha = Dimmed | Opaque

  datatype Visibility = Visible | Invisible | Gone

  /** The icons `UiUtils.resolveDrawable` yields for the three subject kinds. */
  datatype IconTheme = IconTheme(issueIcon: int, pullRequestIcon: int, commitIcon: int)

  function ViewTypeOf(e: Entry): (t: ViewType)
    ensures t == HeaderViewType <==> e.notification.None?
    ensures t == DefaultViewType <==> e.notification.Some?
  {
    if e.notification.None? then HeaderViewType else DefaultViewType
  }

  function LayoutFor(t: ViewType): (l: Layout)
    ensures l == HeaderLayout <==> t == HeaderViewType
  {
    if t == HeaderViewType then HeaderLayout else NotificationLayout
  }

  /** The icon resource for a subject kind: a closed table of three kinds, with
      -1 (no icon) for every other string. */
  function IconResId(theme: IconTheme, subjectKind: string): (id: int)
    ensures subjectKind == SubjectIssue ==> id == theme.issueIcon
    ensures subjectKind == SubjectPullRequest ==> id == theme.pullRequestIcon
    ensures subjectKind == SubjectCommit ==> id == theme.commitIcon
    ensures subjectKind !in {SubjectIssue, SubjectPullRequest, SubjectCommit} ==> id == -1
  {
    if subjectKind == SubjectIssue then theme.issueIcon
    else if subjectKind == SubjectPullRequest then theme.pullRequestIcon
    else if subjectKind == SubjectCommit then theme.commitIcon
    else -1
  }

  /** What onBindViewHolder writes into a row besides the tag. A header row
      only gets its title, its alpha and the action icon's visibility; a
      notification row everything else. */
  datatype RowUpdate =
    | HeaderRow(alpha: Alpha, actionVisibility: Visibility, title: string)
    | NotificationRow(
        alpha: Alpha,
        markAsReadVisible: bool,
        iconResId: int,
        iconVisibility: Visibility,
        title: string,
        paddingBottom: int,
        marginBottom: int)

  function RowUpdateFor(e: Entry, theme: IconTheme, bottomPadding: int, topBottomMargin: int): (u: RowUpdate)
    ensures u.HeaderRow? <==> ViewTypeOf(e) == HeaderViewType
    ensures u.alpha == Dimmed <==> e.isRead
    ensures u.HeaderRow? ==> (u.actionVisibility == Gone <==> e.isRead)
    ensures u.HeaderRow? ==> (u.actionVisibility == Visible <==> !e.isRead)
    ensures u.HeaderRow? ==> u.title == e.repository.ownerLogin + "/" + e.repository.name
    ensures u.NotificationRow? ==> (u.markAsReadVisible <==> !e.isRead)
    ensures u.NotificationRow? ==> u.title == e.notification.value.subject.title
    ensures u.NotificationRow? ==> u.iconResId == IconResId(theme, e.notification.value.subject.kind)
    ensures u.NotificationRow? ==> (u.iconVisibility == Visible <==> u.iconResId > 0)
    ensures u.NotificationRow? ==> (u.iconVisibility == Invisible <==> u.iconResId <= 0)
    ensures u.NotificationRow? && e.notification.value.subject.kind !in {SubjectIssue, SubjectPullRequest, SubjectCommit} ==>
      u.iconVisibility == Invisible
    ensures u.NotificationRow? ==> u.paddingBottom in {0, bottomPadding} && u.marginBottom in {0, topBottomMargin}
    ensures u.NotificationRow? && bottomPadding != 0 ==> (u.paddingBottom != 0 <==> e.isLastRepositoryNotification)
    ensures u.NotificationRow? && topBottomMargin != 0 ==> (u.marginBottom != 0 <==> e.isLastRepositoryNotification)
  {
    var alpha := if e.isRead then Dimmed else Opaque;
    match e.notification
    case None =>
      HeaderRow(alpha, if e.isRead then Gone else Visible,
                e.repository.ownerLogin + "/" + e.repository.name)
    case Some(n) =>
      var iconResId := IconResId(theme, n.subject.kind);
      NotificationRow(
        alpha,
        !e.isRead,
        iconResId,
        if iconResId > 0 then Visible else Invisible,
        n.subject.title,
        if e.isLastRepositoryNotification then bottomPadding else 0,
        if e.isLastRepositoryNotification then topBottomMargin else 0)
  }

  /*---------------------------------------------------------------------------
   * Gesture dispatch
   *-------------------------------------------------------------------------*/

  /** The view a click comes from; only the action icon has a listener. */
  datatype ViewId = ActionIcon | OtherView

  /** The entries of the row's popup menu. */
  datatype MenuItemId = MarkAsReadItem | UnsubscribeItem | OtherItem(id: int)

  /** What a gesture leads to. */
  datatype Gesture = CallMarkAsRead | CallUnsubscribe | ShowMenu | NoAction

  /** A tap on the action icon of a row bound to an item with (or without) a
      notification: a header is marked read at once, a notification row opens
      its menu. */
  function ClickGesture(view: ViewId, isHeader: bool): (g: Gesture)
    ensures g == CallMarkAsRead <==> view == ActionIcon && isHeader
    ensures g == ShowMenu <==> view == ActionIcon && !isHeader
    ensures g != CallUnsubscribe
  {
    if view != ActionIcon then NoAction
    else if isHeader then CallMarkAsRead
    else ShowMenu
  }

  /** The menu's two entries call the matching callback; any other id is not
      handled. */
  function MenuGesture(id: MenuItemId): (g: Gesture)
    ensures g == CallMarkAsRead <==> id == MarkAsReadItem
    ensures g == CallUnsubscribe <==> id == UnsubscribeItem
    ensures g == NoAction <==> id.OtherItem?
    ensures g != ShowMenu
  {
    match id
    case MarkAsReadItem => CallMarkAsRead
    case UnsubscribeItem => CallUnsubscribe
    case OtherItem(_) => NoAction
  }

  /*---------------------------------------------------------------------------
   * Objects
   *-------------------------------------------------------------------------*/

  /** One list item. Only its read flag changes; the rest is fixed when the
      list is loaded. */
  class NotificationHolder {
    const repository: Repository
    const notification: Option<Notification>
    const isLastRepositoryNotification: bool
    var isRead: bool

    constructor (repository: Repository, notification: Option<Notification>, isRead: bool, isLastRepositoryNotification: bool)
      ensures Value() == Entry(repository, notification, isRead, isLastRepositoryNotification)
    {
      this.repository := repository;
      this.notification := notification;
      this.isRead := isRead;
      this.isLastRepositoryNotification := isLastRepositoryNotification;
    }

    function Value(): Entry
      reads this
    {
      Entry(repository, notification, isRead, isLastRepositoryNotification)
    }
  }

  /** A call the adapter makes on the host's OnNotificationActionCallback. */
  datatype CallbackEvent =
    | MarkAsReadCalled(item: NotificationHolder?)
    | UnsubscribeCalled(item: NotificationHolder?)

  /** The host's callback, as the trace of the calls it receives. */
  class ActionCallback {
    var events: seq<CallbackEvent>

    constructor ()
      ensures events == []
    {
      events := [];
    }

    method MarkAsRead(item: NotificationHolder?)
      modifies this
      ensures events == old(events) + [MarkAsReadCalled(item)]
    {
      events := events + [MarkAsReadCalled(item)];
    }

    method Unsubscribe(item: NotificationHolder?)
      modifies this
      ensures events == old(events) + [UnsubscribeCalled(item)]
    {
      events := events + [UnsubscribeCalled(item)];
    }
  }

  /** One row: the state the adapter writes into its widgets, the item its
      action icon is tagged with, and the callback its gestures go to. */
  class ViewHolder {
    const layout: Layout
    const callback: ActionCallback
    var actionTag: NotificationHolder?
    var titleAlpha: Alpha
    var iconAlpha: Alpha
    var timestampAlpha: Alpha
    var actionVisibility: Visibility
    var title: string
    var markAsReadVisible: bool
    var iconResId: int
    var iconVisibility: Visibility
    var paddingBottom: int
    var marginBottom: int
    /** How many times the popup menu was shown. */
    var menuShown: nat

    constructor (layout: Layout, callback: ActionCallback)
      ensures this.layout == layout && this.callback == callback
      ensures actionTag == null && menuShown == 0
    {
      this.layout := layout;
      this.callback := callback;
      actionTag := null;
      titleAlpha, iconAlpha, timestampAlpha := Opaque, Opaque, Opaque;
      actionVisibility, iconVisibility := Visible, Visible;
      title := "";
      markAsReadVisible := true;
      iconResId := 0;
      paddingBottom, marginBottom := 0, 0;
      menuShown := 0;
    }

    /** The click listener of the action icon: its tag must hold a bound item. */
    method OnClick(view: ViewId)
      requires view == ActionIcon ==> actionTag != null
      modifies this`menuShown, callback
      ensures view == ActionIcon && ClickGesture(view, actionTag.notification.None?) == CallMarkAsRead ==>
        callback.events == old(callback.events) + [MarkAsReadCalled(actionTag)] && menuShown == old(menuShown)
      ensures view == ActionIcon && ClickGesture(view, actionTag.notification.None?) == ShowMenu ==>
        callback.events == old(callback.events) && menuShown == old(menuShown) + 1
      ensures view != ActionIcon ==> callback.events == old(callback.events) && menuShown == old(menuShown)
    {
      if view == ActionIcon {
        var item := actionTag;
        if item.notification.None? {
          callback.MarkAsRead(item);
        } else {
          menuShown := menuShown + 1;
        }
      }
    }

    /** The popup menu listener: returns whether the entry was handled. */
    method OnMenuItemClick(id: MenuItemId) returns (handled: bool)
      modifies callback
      ensures handled <==> MenuGesture(id) != NoAction
      ensures MenuGesture(id) == CallMarkAsRead ==> callback.events == old(callback.events) + [MarkAsReadCalled(actionTag)]
      ensures MenuGesture(id) == CallUnsubscribe ==> callback.events == old(callback.events) + [UnsubscribeCalled(actionTag)]
      ensures MenuGesture(id) == NoAction ==> callback.events == old(callback.events)
    {
      var item := actionTag;
      match id
      case MarkAsReadItem =>
        callback.MarkAsRead(item);
        return true;
      case UnsubscribeItem =>
        callback.Unsubscribe(item);
        return true;
      case OtherItem(_) =>
        return false;
    }

    /** The row shows `u`: the fields `u` names hold its values. */
    ghost predicate Shows(u: RowUpdate)
      reads this
    {
      titleAlpha == u.alpha && title == u.title &&
      match u
      case HeaderRow(_, actionVis, _) => actionVisibility == actionVis
      case NotificationRow(alpha, markVisible, _, iconVis, _, padding, margin) =>
        iconAlpha == alpha && timestampAlpha == alpha && markAsReadVisible == markVisible &&
        iconVisibility == iconVis && paddingBottom == padding && marginBottom == margin
    }
  }

  class NotificationAdapter {
    /** The items in display order. */
    var items: seq<NotificationHolder>
    /** How many times notifyDataSetChanged was called. */
    var dataSetChangedCount: nat
    const actionCallback: ActionCallback
    /** card_top_bottom_margin and notification_card_padding_bottom. */
    const topBottomMargin: int
    const bottomPadding: int
    const icons: IconTheme

    constructor (actionCallback: ActionCallback, topBottomMargin: int, bottomPadding: int, icons: IconTheme, items: seq<NotificationHolder>)
      ensures this.actionCallback == actionCallback && this.items == items
      ensures this.topBottomMargin == topBottomMargin && this.bottomPadding == bottomPadding && this.icons == icons
      ensures dataSetChangedCount == 0
    {
      this.actionCallback := actionCallback;
      this.topBottomMargin := topBottomMargin;
      this.bottomPadding := bottomPadding;
      this.icons := icons;
      this.items := items;
      dataSetChangedCount := 0;
    }

    /** The values of the items, in display order. */
    ghost function Entries(): seq<Entry>
      reads this, items
    {
      seq(|items|, i reads this, items requires 0 <= i < |items| => items[i].Value())
    }

    /** Marks every item selected by the three-way match as read, in place, then
        signals one data-set change. */
    method MarkAsRead(repository: Option<Repository>, notification: Option<Notification>)
      modifies this`dataSetChangedCount, items
      ensures items == old(items)
      ensures Entries() == MarkedAsRead(old(Entries()), repository, notification)
      ensures dataSetChangedCount == old(dataSetChangedCount) + 1
    {
      var i := 0;
      while i < |items|
        invariant 0 <= i <= |items|
        invariant dataSetChangedCount == old(dataSetChangedCount)
        invariant forall j :: 0 <= j < |items| ==>
          items[j].isRead == (old(items[j].isRead) || (Selected(items[j].Value(), repository, notification) && items[j] in items[..i]))
      {
        var item := items[i];
        if (repository.None? && notification.None?)
          || (repository.Some? && item.repository == repository.value)
          || (item.notification.Some? && item.notification == notification)
        {
          item.isRead := true;
        }
        assert items[..i + 1] == items[..i] + [item];
        i := i + 1;
      }
      assert items[..i] == items;
      forall j | 0 <= j < |items|
        ensures Entries()[j] == MarkedAsRead(old(Entries()), repository, notification)[j]
      {
        MarkedAsReadAt(old(Entries()), repository, notification, j);
      }
      dataSetChangedCount := dataSetChangedCount + 1;
    }

    method GetItemViewType(item: NotificationHolder) returns (t: ViewType)
      ensures t == ViewTypeOf(item.Value())
      ensures t == HeaderViewType <==> item.notification.None?
    {
      if item.notification.None? {
        return HeaderViewType;
      }
      return DefaultViewType;
    }

    /** A fresh row with the layout of its view type and the adapter's callback. */
    method OnCreateViewHolder(viewType: ViewType) returns (holder: ViewHolder)
      ensures fresh(holder)
      ensures holder.layout == LayoutFor(viewType) && holder.callback == actionCallback
      ensures holder.actionTag == null && holder.menuShown == 0
    {
      holder := new ViewHolder(LayoutFor(viewType), actionCallback);
    }

    /** Tags the row's action icon with `item` and writes the row's state; a
        header row returns early and leaves the notification widgets alone. */
    method OnBindViewHolder(holder: ViewHolder, item: NotificationHolder)
      modifies holder
      ensures holder.actionTag == item
      ensures holder.Shows(RowUpdateFor(item.Value(), icons, bottomPadding, topBottomMargin))
      ensures var u := RowUpdateFor(item.Value(), icons, bottomPadding, topBottomMargin);
        if u.HeaderRow? then
          holder.iconAlpha == old(holder.iconAlpha) && holder.timestampAlpha == old(holder.timestampAlpha) &&
          holder.markAsReadVisible == old(holder.markAsReadVisible) && holder.iconResId == old(holder.iconResId) &&
          holder.iconVisibility == old(holder.iconVisibility) && holder.paddingBottom == old(holder.paddingBottom) &&
          holder.marginBottom == old(holder.marginBottom)
        else
          holder.actionVisibility == old(holder.actionVisibility) &&
          holder.iconResId == (if u.iconResId > 0 then u.iconResId else old(holder.iconResId))
      ensures holder.menuShown == old(holder.menuShown)
    {
      holder.actionTag := item;

      var alpha := if item.isRead then Dimmed else Opaque;
      holder.titleAlpha := alpha;

      if item.notification.None? {
        holder.actionVisibility := if item.isRead then Gone else Visible;
        holder.title := item.repository.ownerLogin + "/" + item.repository.name;
        return;
      }

      holder.iconAlpha := alpha;
      holder.timestampAlpha := alpha;
      holder.markAsReadVisible := !item.isRead;

      var subject := item.notification.value.subject;
      var iconResId := IconResId(icons, subject.kind);
      if iconResId > 0 {
        holder.iconResId := iconResId;
        holder.iconVisibility := Visible;
      } else {
        holder.iconVisibility := Invisible;
      }

      holder.title := subject.title;

      holder.paddingBottom := if item.isLastRepositoryNotification then bottomPadding else 0;
      holder.marginBottom := if item.isLastRepositoryNotification then topBottomMargin else 0;
    }
  }

  /** Usage example, not part of the adapter.
      A header and a notification of one repository, both unread: marking the
      repository read marks both and signals one change. */
  method MarkRepositoryScenario(r1: Repository, n1: Notification)
  {
    var callback := new ActionCallback();
    var header := new NotificationHolder(r1, None, false, false);
    var item := new NotificationHolder(r1, Some(n1), false, true);
    var adapter := new NotificationAdapter(callback, 8, 4, IconTheme(1, 2, 3), [header, item]);
    ghost var before := adapter.Entries();
    adapter.MarkAsRead(Some(r1), None);
    MarkOneRepositoryExactly(before, r1);
    assert adapter.Entries()[0] == header.Value() && adapter.Entries()[1] == item.Value();
    assert header.isRead && item.isRead;
    assert adapter.dataSetChangedCount == 1;
  }
}
