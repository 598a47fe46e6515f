/** Time-limited share links (internal/handlers/share.go): an admin creates a link that
    expires a number of hours later, lists and deletes links, and anyone holding a live
    link sees the whole fleet read-only. The clock is the parameter `now`, in seconds,
    and the new link's random id is the parameter `freshId`. */
module Share {
  import opened Wrappers
  import opened Models
  import opened Text
  import opened Http
  import opened Middleware
  import Store

  const DefaultHours := 24
  const MaxHours := 8760
  const SecondsPerHour := 3600

  const ShareAdminPath: string := "/admin/share"

  /** The form's `hours` accepted: an integer in 1..8760 (`strconv.Atoi`). */
  predicate AcceptedHours(hoursForm: string) {
    var h := ParseInt64(hoursForm);
    h.Some? && 0 < h.value <= MaxHours
  }

  /** How long the link lives: the form value if it is accepted, otherwise a day. */
  function Hours(hoursForm: string): (h: int)
    ensures AcceptedHours(hoursForm) ==> h == ParseInt64(hoursForm).value
    ensures !AcceptedHours(hoursForm) ==> h == DefaultHours
    ensures 0 < h <= MaxHours
  {
    var hours := DefaultHours;
    if hoursForm != "" then
      var parsed := ParseInt64(hoursForm);
      if parsed.Some? && parsed.value > 0 && parsed.value <= MaxHours then parsed.value else hours
    else hours
  }

  /** The expiry stored with the link: `hours` whole hours after `now`. */
  function ExpiresAt(now: int, hoursForm: string): (t: int)
    ensures t - now == Hours(hoursForm) * SecondsPerHour
    ensures now < t <= now + MaxHours * SecondsPerHour
  {
    now + Hours(hoursForm) * SecondsPerHour
  }

  /** Any number of hours from 1 to 8760, written in decimal, is taken as given. */
  lemma {:induction false} HoursInRangeKept(n: int)
    requires 0 < n <= MaxHours
    ensures Hours(FormatDecimal(n)) == n
  {
    ParseFormatRoundTrip(n);
  }

  /** Zero, negative and over-a-year values, an empty field and text fall back to a day. */
  lemma {:induction false} HoursOutOfRangeDefault(n: int)
    requires n <= 0 || n > MaxHours
    ensures Hours(FormatDecimal(n)) == DefaultHours
    ensures Hours("") == DefaultHours && Hours("week") == DefaultHours
  {
    ParseFormatRoundTrip(n);
    assert !IsDigit('w');
  }

  /** "100" is honoured; "0", "10000" and a word fall back to a day. */
  lemma HoursExamples()
    ensures Hours("100") == 100
    ensures Hours("0") == DefaultHours && Hours("10000") == DefaultHours && Hours("abc") == DefaultHours
  {
    HoursInRangeKept(100);
    assert FormatDecimal(100) == "100";
    HoursOutOfRangeDefault(0);
    assert FormatDecimal(0) == "0";
    HoursOutOfRangeDefault(10000);
    assert FormatDecimal(10000) == "10000";
    assert !IsDigit('a');
  }

  /** CreateShareLink: without a user in the context the request is refused with 401 and
      nothing is stored; otherwise a link by that user, expiring `Hours` later, is stored
      and the admin is sent to the list with the new id highlighted (or gets 500 if the
      insert fails). */
  method CreateShareLink(db: Store.DB, ctx: Context, hoursForm: string, now: int, freshId: string) returns (resp: Response)
    requires db.Valid()
    modifies db`shareLinks
    ensures db.Valid()
    ensures ContextUser(ctx).None? ==> resp == Error(StatusUnauthorized, "Unauthorized") && db.shareLinks == old(db.shareLinks)
    ensures ContextUser(ctx).Some? && freshId in old(db.shareLinks) ==> (
      resp == Error(StatusInternalServerError, "Failed to create share link") && db.shareLinks == old(db.shareLinks))
    ensures ContextUser(ctx).Some? && freshId !in old(db.shareLinks) ==> (
      resp == Redirect(ShareAdminPath + "?new=" + freshId) &&
      db.shareLinks == old(db.shareLinks)[freshId := ShareLink(freshId, ContextUser(ctx).value.id, ExpiresAt(now, hoursForm), now)])
  {
    var user := ContextUser(ctx);
    if user.None? {
      return Error(StatusUnauthorized, "Unauthorized");
    }
    var expiresAt := ExpiresAt(now, hoursForm);
    var link := db.CreateShareLink(user.value.id, expiresAt, now, freshId);
    if link.Err? {
      return Error(StatusInternalServerError, "Failed to create share link");
    }
    resp := Redirect(ShareAdminPath + "?new=" + link.value.id);
  }

  /** A link created at `now` is live until its expiry and dead from then on. */
  lemma NewLinkLifetime(db: Store.DB, id: string, createdBy: string, now: int, hoursForm: string, later: int)
    requires db.Valid()
    requires id in db.shareLinks && db.shareLinks[id] == ShareLink(id, createdBy, ExpiresAt(now, hoursForm), now)
    ensures db.GetValidShareLink(id, later).Some? <==> later < now + Hours(hoursForm) * SecondsPerHour
  {
  }

  /** DeleteShareLink: an empty id is refused with 400 and nothing changes; otherwise the
      link is removed, whether or not it existed, and the admin is sent back to the list. */
  method DeleteShareLink(db: Store.DB, id: string) returns (resp: Response)
    requires db.Valid()
    modifies db`shareLinks
    ensures db.Valid()
    ensures id == "" ==> resp == Error(StatusBadRequest, "Link ID required") && db.shareLinks == old(db.shareLinks)
    ensures id != "" ==> resp == Redirect(ShareAdminPath) && db.shareLinks == old(db.shareLinks) - {id}
  {
    if id == "" {
      return Error(StatusBadRequest, "Link ID required");
    }
    db.DeleteShareLink(id);
    resp := Redirect(ShareAdminPath);
  }

  /** AdminShareLinks: every stored link, with the `new` query value passed on. */
  method AdminShareLinks(db: Store.DB, newLinkId: string) returns (resp: Response)
    requires db.Valid()
    ensures resp.Page? && resp.view.ShareLinksView? && resp.view.newLinkId == newLinkId
    ensures forall l :: l in resp.view.links <==> l in db.shareLinks.Values
  {
    var links := db.GetAllShareLinks();
    resp := Page(ShareLinksView(links, newLinkId));
  }

  /** The checks of ViewSharedInventory, in order: an empty id is not found before the store
      is asked; a store error is 500; a missing or expired link is 404 with one message for
      both; a live link lets the viewer through. */
  function SharedAccess(id: string, link: Lookup<ShareLink>): (g: Gate<ShareLink>)
    ensures id == "" ==> g == Deny(Error(StatusNotFound, "Share link not found"))
    ensures id != "" && link.Failed? ==> g == Deny(Error(StatusInternalServerError, "Failed to validate share link"))
    ensures id != "" && link.Missing? ==> g == Deny(Error(StatusNotFound, "Share link not found or has expired"))
    ensures g.Pass? <==> id != "" && link.Found?
    ensures g.Pass? ==> g.value == link.value
  {
    if id == "" then Deny(Error(StatusNotFound, "Share link not found"))
    else match link
      case Failed => Deny(Error(StatusInternalServerError, "Failed to validate share link"))
      case Missing => Deny(Error(StatusNotFound, "Share link not found or has expired"))
      case Found(l) => Pass(l)
  }

  /** ViewSharedInventory over the store: refused as `SharedAccess` says for the link's
      state at `now`, otherwise the unfiltered fleet with the link. */
  method ViewSharedInventory(db: Store.DB, id: string, now: int) returns (resp: Response)
    requires db.Valid()
    ensures var g := SharedAccess(id, FromOption(db.GetValidShareLink(id, now)));
      (g.Deny? ==> resp == g.response) &&
      (g.Pass? ==> resp.Page? && resp.view.SharedView? && resp.view.link == g.value && db.IsFleet("", "", resp.view.machines))
  {
    var g := SharedAccess(id, FromOption(db.GetValidShareLink(id, now)));
    if g.Deny? {
      return g.response;
    }
    var machines := db.GetAllMachinesWithOwners("", "");
    resp := Page(SharedView(machines, g.value));
  }

  /** An expired link and an unknown one look the same to the visitor. */
  lemma ExpiredLooksLikeUnknown(db: Store.DB, id: string, unknown: string, now: int)
    requires db.Valid() && id != "" && unknown != ""
    requires id in db.shareLinks && db.shareLinks[id].expiresAt <= now
    requires unknown !in db.shareLinks
    ensures SharedAccess(id, FromOption(db.GetValidShareLink(id, now))) ==
            SharedAccess(unknown, FromOption(db.GetValidShareLink(unknown, now)))
    ensures Status(SharedAccess(id, FromOption(db.GetValidShareLink(id, now))).response) == StatusNotFound
  {
  }
}
