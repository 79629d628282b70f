/**
 * The account pool: the newest rate-limit readings per account, the headroom they leave, and the
 * choice of the account a process runs on.  Times are seconds, and utilizations are exact.
 */
module Accounts {
  import opened Prelude

  const WARNING_UTILIZATION := 0.90
  const AUTH_FAILURE_COOLDOWN := 900.0
  const REJECTED_WITHOUT_RESET := 3600.0
  const RESET_BONUS_SCALE := 0.10
  const RESET_BONUS_HORIZON := 86400.0
  const RESET_BONUS_MIN_HEADROOM := 0.10
  const SCORE_TIE := 0.02

  datatype Reading = Reading(at: real, utilization: real, rejectedUntil: Option<real>)

  /** A usage-panel window; utilization is a percentage, and a plan-wide window has no scope. */
  datatype Window = Window(utilization: Option<real>, resetsAt: Option<real>, minutes: Option<int>, scope: Option<string>)

  datatype Panel = Panel(at: real, windows: seq<Window>)

  /** A model query: which scopes name its family. */
  type Model = Option<string -> bool>

  /** What the process remembers about the accounts. */
  datatype Known = Known(events: map<string, Reading>, panels: map<string, Panel>, authFailures: map<string, real>)

  function Max(a: real, b: real): real {
    if a < b then b else a
  }

  // ---------------------------------------------------------------------------
  // Windows
  // ---------------------------------------------------------------------------

  /** The one expiry rule: a reset has passed since the sample, or the sample is older than the window is long. */
  predicate WindowExpired(w: Window, sampled: Option<real>, now: real) {
    && sampled.Some?
    && ((w.resetsAt.Some? && w.resetsAt.value <= now && sampled.value < w.resetsAt.value)
        || (w.minutes.Some? && now - sampled.value > 60.0 * (w.minutes.value as real)))
  }

  predicate Readable(w: Window, model: Model) {
    w.scope.Some? ==> model.Some? && model.value(w.scope.value)
  }

  predicate IsLive(p: Panel, w: Window, model: Model, now: real) {
    !WindowExpired(w, Some(p.at), now) && Readable(w, model)
  }

  /** The live windows readable by the model, in order. */
  function LiveOf(p: Panel, ws: seq<Window>, model: Model, now: real): seq<Window> {
    if ws == [] then []
    else
      var w := ws[|ws| - 1];
      LiveOf(p, ws[..|ws| - 1], model, now) + if IsLive(p, w, model, now) then [w] else []
  }

  function LiveWindows(k: Known, login: string, model: Model, now: real): seq<Window> {
    if login in k.panels then LiveOf(k.panels[login], k.panels[login].windows, model, now) else []
  }

  lemma {:induction false} LiveOfElements(p: Panel, ws: seq<Window>, model: Model, now: real, w: Window)
    ensures w in LiveOf(p, ws, model, now) <==> w in ws && IsLive(p, w, model, now)
  {
    if ws != [] {
      LiveOfElements(p, ws[..|ws| - 1], model, now, w);
      assert ws == ws[..|ws| - 1] + [ws[|ws| - 1]];
    }
  }

  /** The highest utilization among windows that have one, as a percentage. */
  function Highest(ws: seq<Window>): Option<real> {
    if ws == [] then None
    else
      var rest, w := Highest(ws[..|ws| - 1]), ws[|ws| - 1];
      if w.utilization.None? then rest
      else if rest.None? then w.utilization
      else Some(Max(rest.value, w.utilization.value))
  }

  lemma {:induction false} HighestBounds(ws: seq<Window>, w: Window)
    requires w in ws && w.utilization.Some?
    ensures Highest(ws).Some? && w.utilization.value <= Highest(ws).value
  {
    var n := |ws| - 1;
    assert ws == ws[..n] + [ws[n]];
    if w in ws[..n] {
      HighestBounds(ws[..n], w);
    }
  }

  // ---------------------------------------------------------------------------
  // Readings
  // ---------------------------------------------------------------------------

  function PanelReading(k: Known, login: string, model: Model, now: real): Option<Reading> {
    if login !in k.panels then None
    else
      var highest := Highest(LiveWindows(k, login, model, now));
      if highest.None? then None else Some(Reading(k.panels[login].at, highest.value / 100.0, None))
  }

  function EventReading(k: Known, login: string): Option<Reading> {
    if login in k.events then Some(k.events[login]) else None
  }

  /** The newer of two readings; the first wins a tie. */
  function Newest(a: Option<Reading>, b: Option<Reading>): Option<Reading> {
    if a.None? then b else if b.None? then a else if a.value.at < b.value.at then b else a
  }

  predicate AnyScoped(ws: seq<Window>) {
    exists w :: w in ws && w.scope.Some?
  }

  /** The event or plan-wide reading, joined by a live model-scoped window whatever its age. */
  function LatestReading(k: Known, login: string, model: Model, now: real, neverActive: real): Option<Reading> {
    var general := Newest(EventReading(k, login), PanelReading(k, login, None, now));
    if model.None? || !AnyScoped(LiveWindows(k, login, model, now)) then general
    else
      var scoped := PanelReading(k, login, model, now);
      if scoped.None? then general
      else
        var held := general.Some? && general.value.rejectedUntil.Some? && general.value.rejectedUntil.value > now;
        Some(Reading(
               Max(if general.Some? then general.value.at else neverActive, scoped.value.at),
               Max(if general.Some? then general.value.utilization else 0.0, scoped.value.utilization),
               if held then general.value.rejectedUntil else None))
  }

  function HeadroomOf(reading: Option<Reading>, now: real): real {
    if reading.None? then 1.0
    else if reading.value.rejectedUntil.Some? && reading.value.rejectedUntil.value > now then 0.0
    else Max(0.0, 1.0 - reading.value.utilization)
  }

  function Headroom(k: Known, login: string, model: Model, now: real, neverActive: real): real {
    HeadroomOf(LatestReading(k, login, model, now, neverActive), now)
  }

  /** A live model-scoped window at u percent caps the headroom, whatever the account's event reading is. */
  lemma {:induction false} ScopedWindowCaps(k: Known, login: string, model: Model, now: real, neverActive: real, w: Window)
    requires login in k.panels && w in k.panels[login].windows && IsLive(k.panels[login], w, model, now)
    requires w.scope.Some? && w.utilization.Some?
    ensures Headroom(k, login, model, now, neverActive) <= Max(0.0, 1.0 - w.utilization.value / 100.0)
  {
    LiveOfElements(k.panels[login], k.panels[login].windows, model, now, w);
    var live := LiveWindows(k, login, model, now);
    assert AnyScoped(live);
    HighestBounds(live, w);
  }

  /** The effective reading still carries a rejection. */
  predicate Held(reading: Option<Reading>, now: real) {
    reading.Some? && reading.value.rejectedUntil.Some? && reading.value.rejectedUntil.value > now
  }

  /** A rejection holds the headroom at zero exactly until a newer plan-wide panel reading replaces it. */
  lemma {:induction false} RejectionHoldsExact(k: Known, login: string, model: Model, now: real, neverActive: real)
    requires Held(EventReading(k, login), now)
    ensures Held(LatestReading(k, login, model, now, neverActive), now) <==>
              PanelReading(k, login, None, now).None? || PanelReading(k, login, None, now).value.at <= k.events[login].at
    ensures Headroom(k, login, model, now, neverActive) == 0.0 <==>
              Held(LatestReading(k, login, model, now, neverActive), now)
              || LatestReading(k, login, model, now, neverActive).value.utilization >= 1.0
  {
  }

  /** A rejected account whose reset is ahead, read as four fifths free after a newer panel sample. */
  lemma {:induction false} RejectionForgotten(login: string)
    ensures var k := Known(map[login := Reading(10.0, 1.0, Some(100.0))],
                           map[login := Panel(20.0, [Window(Some(20.0), None, None, None)])], map[]);
            Held(EventReading(k, login), 30.0) && Headroom(k, login, None, 30.0, 0.0) == 0.8
  {
    var w := Window(Some(20.0), None, None, None);
    var p := Panel(20.0, [w]);
    assert [w][..0] == [];
    assert LiveOf(p, [], None, 30.0) == [];
    assert LiveOf(p, [w], None, 30.0) == [w];
    assert Highest([w]) == Some(20.0);
  }

  // ---------------------------------------------------------------------------
  // What the headroom is, reading by reading
  // ---------------------------------------------------------------------------

  /** A stored window still speaks: no reset since its sample has passed, and the sample is not older than it is long. */
  predicate Speaks(k: Known, login: string, w: Window, now: real) {
    && login in k.panels && w in k.panels[login].windows
    && (w.resetsAt.None? || now < w.resetsAt.value || w.resetsAt.value <= k.panels[login].at)
    && (w.minutes.None? || now <= k.panels[login].at + 60.0 * (w.minutes.value as real))
  }

  predicate PlanWide(w: Window) {
    w.scope.None?
  }

  /** A window that is scoped to the model asked for. */
  predicate ScopedTo(w: Window, model: Model) {
    w.scope.Some? && model.Some? && model.value(w.scope.value)
  }

  /** The plan-wide part of the panel says something. */
  ghost predicate PanelSpeaks(k: Known, login: string, now: real) {
    exists w :: Speaks(k, login, w, now) && PlanWide(w) && w.utilization.Some?
  }

  ghost predicate ScopedSpeaks(k: Known, login: string, model: Model, now: real) {
    exists w :: Speaks(k, login, w, now) && ScopedTo(w, model)
  }

  /** The account's event reading counts unless the panel has spoken since. */
  ghost predicate EventCounts(k: Known, login: string, now: real) {
    login in k.events && !(PanelSpeaks(k, login, now) && k.events[login].at < k.panels[login].at)
  }

  /** A window counts if it speaks for the model, and the panel is the newer word or speaks of the model in particular. */
  ghost predicate WindowCounts(k: Known, login: string, model: Model, now: real, w: Window) {
    && Speaks(k, login, w, now) && w.utilization.Some? && (PlanWide(w) || ScopedTo(w, model))
    && (!EventCounts(k, login, now) || ScopedSpeaks(k, login, model, now))
  }

  /** A utilization that counts: the event's, or a window's percentage; windows of the model alone count from zero up. */
  ghost predicate Counts(k: Known, login: string, model: Model, now: real, u: real) {
    || (EventCounts(k, login, now) && u == k.events[login].utilization)
    || (exists w :: WindowCounts(k, login, model, now, w) && u == w.utilization.value / 100.0)
    || (u == 0.0 && !EventCounts(k, login, now) && !PanelSpeaks(k, login, now)
        && exists w :: WindowCounts(k, login, model, now, w))
  }

  /** The event reading counts, and it is a rejection whose reset is ahead. */
  ghost predicate HeldByEvent(k: Known, login: string, now: real) {
    EventCounts(k, login, now) && k.events[login].rejectedUntil.Some? && now < k.events[login].rejectedUntil.value
  }

  lemma {:induction false} SpeakingIsLive(k: Known, login: string, model: Model, now: real, w: Window)
    ensures w in LiveWindows(k, login, model, now) <==>
              Speaks(k, login, w, now) && (PlanWide(w) || ScopedTo(w, model))
  {
    if login in k.panels {
      LiveOfElements(k.panels[login], k.panels[login].windows, model, now, w);
    }
  }

  /** The panel reading is the highest utilization of its live windows. */
  lemma {:induction false} PanelReadingIs(k: Known, login: string, model: Model, now: real) returns (top: Option<Window>)
    ensures top.None? <==> PanelReading(k, login, model, now).None?
    ensures top.None? ==> forall w :: w in LiveWindows(k, login, model, now) ==> w.utilization.None?
    ensures top.Some? ==>
              && top.value in LiveWindows(k, login, model, now) && top.value.utilization.Some? && login in k.panels
              && PanelReading(k, login, model, now) ==
                 Some(Reading(k.panels[login].at, top.value.utilization.value / 100.0, None))
              && forall w :: w in LiveWindows(k, login, model, now) && w.utilization.Some? ==>
                   w.utilization.value <= top.value.utilization.value
  {
    var live := LiveWindows(k, login, model, now);
    BindingIsHighest(live);
    top := Binding(live);
    forall w | w in live && w.utilization.Some? ensures Highest(live).Some? && w.utilization.value <= Highest(live).value {
      HighestBounds(live, w);
    }
  }

  lemma {:induction false} PanelSpeaksIff(k: Known, login: string, now: real)
    ensures PanelSpeaks(k, login, now) <==> PanelReading(k, login, None, now).Some?
  {
    var top := PanelReadingIs(k, login, None, now);
    if top.Some? {
      SpeakingIsLive(k, login, None, now, top.value);
    } else {
      forall w ensures !(Speaks(k, login, w, now) && PlanWide(w) && w.utilization.Some?) {
        SpeakingIsLive(k, login, None, now, w);
      }
    }
  }

  lemma {:induction false} ScopedSpeaksIff(k: Known, login: string, model: Model, now: real)
    ensures ScopedSpeaks(k, login, model, now) <==> model.Some? && AnyScoped(LiveWindows(k, login, model, now))
  {
    var live := LiveWindows(k, login, model, now);
    forall w ensures w in live && w.scope.Some? <==> Speaks(k, login, w, now) && ScopedTo(w, model) {
      SpeakingIsLive(k, login, model, now, w);
    }
  }

  /** An account nobody has read has all its room. */
  lemma {:induction false} UnreadIsFree(k: Known, login: string, model: Model, now: real, neverActive: real)
    requires login !in k.events
    requires forall w :: Speaks(k, login, w, now) && (PlanWide(w) || ScopedTo(w, model)) ==> w.utilization.None?
    ensures Headroom(k, login, model, now, neverActive) == 1.0
  {
    NothingRead(k, login, model, now);
    NothingRead(k, login, None, now);
  }

  lemma {:induction false} NothingRead(k: Known, login: string, model: Model, now: real)
    requires forall w :: Speaks(k, login, w, now) && (PlanWide(w) || ScopedTo(w, model)) ==> w.utilization.None?
    ensures PanelReading(k, login, model, now).None?
  {
    var top := PanelReadingIs(k, login, model, now);
    if top.Some? {
      SpeakingIsLive(k, login, model, now, top.value);
    }
  }

  /** The model's windows alone give the reading: u is the greatest utilization among them. */
  lemma {:induction false} TopWindow(k: Known, login: string, model: Model, now: real) returns (u: real)
    requires PanelReading(k, login, model, now).Some?
    ensures u == PanelReading(k, login, model, now).value.utilization
    ensures exists w :: Speaks(k, login, w, now) && (PlanWide(w) || ScopedTo(w, model)) && w.utilization.Some?
                        && u == w.utilization.value / 100.0
    ensures forall w :: Speaks(k, login, w, now) && (PlanWide(w) || ScopedTo(w, model)) && w.utilization.Some? ==>
              w.utilization.value / 100.0 <= u
  {
    var top := PanelReadingIs(k, login, model, now);
    u := top.value.utilization.value / 100.0;
    SpeakingIsLive(k, login, model, now, top.value);
    forall w | Speaks(k, login, w, now) && (PlanWide(w) || ScopedTo(w, model)) && w.utilization.Some?
      ensures w.utilization.value / 100.0 <= u
    {
      SpeakingIsLive(k, login, model, now, w);
    }
  }

  /** The fused reading holds the greatest utilization that counts. */
  lemma {:induction false} FusedCounts(k: Known, login: string, model: Model, now: real, neverActive: real)
    requires ScopedSpeaks(k, login, model, now) && PanelReading(k, login, model, now).Some?
    ensures var latest := LatestReading(k, login, model, now, neverActive);
            && latest.Some? && Counts(k, login, model, now, latest.value.utilization)
            && (forall v :: Counts(k, login, model, now, v) ==> v <= latest.value.utilization)
            && (Held(latest, now) <==> HeldByEvent(k, login, now))
  {
    PanelSpeaksIff(k, login, now);
    ScopedSpeaksIff(k, login, model, now);
    var top := TopWindow(k, login, model, now);
    var w :| Speaks(k, login, w, now) && (PlanWide(w) || ScopedTo(w, model)) && w.utilization.Some?
             && top == w.utilization.value / 100.0;
    assert WindowCounts(k, login, model, now, w);
    if PanelSpeaks(k, login, now) {
      var wide := TopWindow(k, login, None, now);
      var v :| Speaks(k, login, v, now) && (PlanWide(v) || ScopedTo(v, None)) && v.utilization.Some?
               && wide == v.utilization.value / 100.0;
      assert WindowCounts(k, login, model, now, v) && wide <= top;
    }
  }

  /** Without a window of the model, the newer of the event and the plan-wide panel counts. */
  lemma {:induction false} GeneralCounts(k: Known, login: string, model: Model, now: real, neverActive: real)
    requires !(ScopedSpeaks(k, login, model, now) && PanelReading(k, login, model, now).Some?)
    ensures var latest := LatestReading(k, login, model, now, neverActive);
            && (latest.None? ==> forall v :: !Counts(k, login, model, now, v))
            && (latest.Some? ==>
                  Counts(k, login, model, now, latest.value.utilization)
                  && forall v :: Counts(k, login, model, now, v) ==> v <= latest.value.utilization)
            && (Held(latest, now) <==> HeldByEvent(k, login, now))
  {
    PanelSpeaksIff(k, login, now);
    ScopedSpeaksIff(k, login, model, now);
    forall w ensures WindowCounts(k, login, model, now, w) ==>
                       Speaks(k, login, w, now) && PlanWide(w) && w.utilization.Some? && !EventCounts(k, login, now)
    {
      if WindowCounts(k, login, model, now, w) {
        OnlyPlanWide(k, login, model, now, w);
      }
    }
    if PanelSpeaks(k, login, now) {
      var wide := TopWindow(k, login, None, now);
      var v :| Speaks(k, login, v, now) && (PlanWide(v) || ScopedTo(v, None)) && v.utilization.Some?
               && wide == v.utilization.value / 100.0;
      assert !EventCounts(k, login, now) ==> WindowCounts(k, login, model, now, v);
    }
  }

  lemma {:induction false} OnlyPlanWide(k: Known, login: string, model: Model, now: real, w: Window)
    requires !(ScopedSpeaks(k, login, model, now) && PanelReading(k, login, model, now).Some?)
    requires WindowCounts(k, login, model, now, w)
    ensures PlanWide(w) && !EventCounts(k, login, now)
  {
    SpeakingIsLive(k, login, model, now, w);
    var top := PanelReadingIs(k, login, model, now);
  }

  /**
   * The headroom, reading by reading: zero while a rejection that counts is ahead; else what the
   * greatest utilization that counts leaves; and everything if none counts.
   */
  lemma {:induction false} HeadroomIs(k: Known, login: string, model: Model, now: real, neverActive: real) returns (u: Option<real>)
    ensures HeldByEvent(k, login, now) ==> Headroom(k, login, model, now, neverActive) == 0.0
    ensures u.None? ==> forall v :: !Counts(k, login, model, now, v)
    ensures u.Some? ==>
              Counts(k, login, model, now, u.value) && forall v :: Counts(k, login, model, now, v) ==> v <= u.value
    ensures !HeldByEvent(k, login, now) ==>
              Headroom(k, login, model, now, neverActive) ==
              if u.None? then 1.0 else if u.value >= 1.0 then 0.0 else 1.0 - u.value
  {
    PanelSpeaksIff(k, login, now);
    ScopedSpeaksIff(k, login, model, now);
    var latest := LatestReading(k, login, model, now, neverActive);
    u := if latest.None? then None else Some(latest.value.utilization);
    if ScopedSpeaks(k, login, model, now) && PanelReading(k, login, model, now).Some? {
      FusedCounts(k, login, model, now, neverActive);
    } else {
      GeneralCounts(k, login, model, now, neverActive);
    }
  }

  // ---------------------------------------------------------------------------
  // The reset bonus
  // ---------------------------------------------------------------------------

  /** The first live window with the highest utilization. */
  function Binding(ws: seq<Window>): (b: Option<Window>)
    ensures b.Some? ==> b.value.utilization.Some?
  {
    if ws == [] then None
    else
      var rest, w := Binding(ws[..|ws| - 1]), ws[|ws| - 1];
      if w.utilization.None? then rest
      else if rest.None? || w.utilization.value > rest.value.utilization.value then Some(w)
      else rest
  }

  lemma {:induction false} BindingIsHighest(ws: seq<Window>)
    ensures Binding(ws).Some? <==> Highest(ws).Some?
    ensures Binding(ws).Some? ==> Binding(ws).value in ws && Binding(ws).value.utilization == Highest(ws)
  {
    if ws != [] {
      BindingIsHighest(ws[..|ws| - 1]);
      assert ws == ws[..|ws| - 1] + [ws[|ws| - 1]];
    }
  }

  function TimeToReset(k: Known, login: string, model: Model, now: real): Option<real> {
    var binding := Binding(LiveWindows(k, login, model, now));
    if binding.None? || binding.value.resetsAt.None? then None else Some(binding.value.resetsAt.value - now)
  }

  function ResetBonus(k: Known, login: string, model: Model, now: real, headroom: real): (bonus: real)
    ensures 0.0 <= bonus <= RESET_BONUS_SCALE
    ensures bonus > 0.0 ==> headroom > RESET_BONUS_MIN_HEADROOM
  {
    var ttr := TimeToReset(k, login, model, now);
    if headroom <= RESET_BONUS_MIN_HEADROOM || ttr.None? || !(0.0 <= ttr.value < RESET_BONUS_HORIZON) then 0.0
    else RESET_BONUS_SCALE * (1.0 - ttr.value / RESET_BONUS_HORIZON)
  }

  /** The window that binds: live for the model, above every one before it, and not below any after it. */
  predicate Binds(ws: seq<Window>, i: nat) {
    && i < |ws| && ws[i].utilization.Some?
    && (forall j :: 0 <= j < i && ws[j].utilization.Some? ==> ws[j].utilization.value < ws[i].utilization.value)
    && (forall j :: i < j < |ws| && ws[j].utilization.Some? ==> ws[j].utilization.value <= ws[i].utilization.value)
  }

  lemma {:induction false} BindingIs(ws: seq<Window>, i: nat)
    requires Binds(ws, i)
    ensures Binding(ws) == Some(ws[i])
  {
    var n := |ws| - 1;
    if i < n {
      assert Binds(ws[..n], i);
      BindingIs(ws[..n], i);
    } else {
      BindingBelow(ws[..n], ws[n].utilization.value);
    }
  }

  lemma {:induction false} BindingBelow(ws: seq<Window>, u: real)
    requires forall j :: 0 <= j < |ws| && ws[j].utilization.Some? ==> ws[j].utilization.value < u
    ensures Binding(ws).Some? ==> Binding(ws).value.utilization.value < u
  {
    if ws != [] {
      BindingBelow(ws[..|ws| - 1], u);
    }
  }

  /** Quota that lapses within a day earns up to a tenth: all of it if it lapses now, none if a day ahead, in proportion between. */
  lemma {:induction false} BonusIs(k: Known, login: string, model: Model, now: real, headroom: real, i: nat)
    requires Binds(LiveWindows(k, login, model, now), i)
    ensures var w, bonus := LiveWindows(k, login, model, now)[i], ResetBonus(k, login, model, now, headroom);
            if headroom > 0.10 && w.resetsAt.Some? && now <= w.resetsAt.value < now + 86400.0
            then bonus * 864000.0 == now + 86400.0 - w.resetsAt.value
            else bonus == 0.0
  {
    BindingIs(LiveWindows(k, login, model, now), i);
  }

  // ---------------------------------------------------------------------------
  // Choosing an account
  // ---------------------------------------------------------------------------

  datatype Account = Account(login: string, configDir: string)

  /** Everything a selection reads. */
  datatype Query = Query(known: Known, credentials: set<string>, model: Model, exclude: set<string>,
                         busy: Option<set<string>>, now: real, neverActive: real)

  predicate Healthy(q: Query, a: Account) {
    a.configDir in q.credentials
    && !(a.login in q.known.authFailures && q.now - q.known.authFailures[a.login] < AUTH_FAILURE_COOLDOWN)
  }

  function Room(q: Query, a: Account): real {
    Headroom(q.known, a.login, q.model, q.now, q.neverActive)
  }

  predicate Available(q: Query, a: Account) {
    a.login !in q.exclude && Healthy(q, a) && Room(q, a) > 0.0
  }

  predicate Idle(q: Query, a: Account) {
    q.busy.None? || a.login !in q.busy.value
  }

  function Score(q: Query, a: Account): real {
    Room(q, a) + ResetBonus(q.known, a.login, q.model, q.now, Room(q, a))
  }

  /** When the account's newest event was read. */
  function LastActive(q: Query, a: Account): real {
    if a.login in q.known.events then q.known.events[a.login].at else q.neverActive
  }

  /** The accounts the choice is made among: the available idle ones, or all available ones when none is idle. */
  predicate Contends(q: Query, pool: seq<Account>, a: Account) {
    a in pool && Available(q, a) && (Idle(q, a) || forall b :: b in pool && Available(q, b) ==> !Idle(q, b))
  }

  method Keep(q: Query, pool: seq<Account>) returns (available: seq<Account>)
    ensures forall a :: a in available <==> a in pool && Available(q, a)
  {
    available := [];
    for i := 0 to |pool|
      invariant forall a :: a in available <==> a in pool[..i] && Available(q, a)
    {
      assert pool[..i + 1] == pool[..i] + [pool[i]];
      if Available(q, pool[i]) {
        available := available + [pool[i]];
      }
    }
    assert pool[..|pool|] == pool;
  }

  method KeepIdle(q: Query, available: seq<Account>) returns (idle: seq<Account>)
    ensures forall a :: a in idle <==> a in available && Idle(q, a)
  {
    idle := [];
    for i := 0 to |available|
      invariant forall a :: a in idle <==> a in available[..i] && Idle(q, a)
    {
      assert available[..i + 1] == available[..i] + [available[i]];
      if Idle(q, available[i]) {
        idle := idle + [available[i]];
      }
    }
    assert available[..|available|] == available;
  }

  /** The best score. */
  method BestScore(q: Query, contenders: seq<Account>) returns (best: real)
    requires contenders != []
    ensures exists a :: a in contenders && Score(q, a) == best
    ensures forall a :: a in contenders ==> Score(q, a) <= best
  {
    best := Score(q, contenders[0]);
    for i := 1 to |contenders|
      invariant exists a :: a in contenders && Score(q, a) == best
      invariant forall j :: 0 <= j < i ==> Score(q, contenders[j]) <= best
    {
      if Score(q, contenders[i]) > best {
        best := Score(q, contenders[i]);
      }
    }
  }

  predicate Tied(q: Query, best: real, a: Account) {
    best - Score(q, a) <= SCORE_TIE
  }

  /** Among the near ties, the first least recently active. */
  method LeastRecent(q: Query, contenders: seq<Account>, best: real) returns (choice: Account)
    requires exists a :: a in contenders && Tied(q, best, a)
    ensures choice in contenders && Tied(q, best, choice)
    ensures forall a :: a in contenders && Tied(q, best, a) ==> LastActive(q, choice) <= LastActive(q, a)
  {
    var found: Option<Account> := None;
    for i := 0 to |contenders|
      invariant found.Some? ==> found.value in contenders && Tied(q, best, found.value)
      invariant forall j :: 0 <= j < i && Tied(q, best, contenders[j]) ==>
                  found.Some? && LastActive(q, found.value) <= LastActive(q, contenders[j])
    {
      var a := contenders[i];
      if Tied(q, best, a) && (found.None? || LastActive(q, a) < LastActive(q, found.value)) {
        found := Some(a);
      }
    }
    choice := found.value;
  }

  /** A contender by whose side no other is better by more than the tie, nor near it and longer inactive. */
  ghost predicate IsChoice(q: Query, pool: seq<Account>, a: Account) {
    && Contends(q, pool, a)
    && forall b :: Contends(q, pool, b) ==>
         && Score(q, b) - Score(q, a) <= SCORE_TIE
         && Room(q, b) <= Room(q, a) + RESET_BONUS_SCALE + SCORE_TIE
         && (LastActive(q, b) < LastActive(q, a) ==>
               exists c :: Contends(q, pool, c) && Score(q, c) - Score(q, b) > SCORE_TIE)
  }

  /**
   * None exactly when no account is available; else a contender, so idle whenever an available
   * account is, whose score is within the tie of the best and whose headroom is within 0.12 of any
   * contender's (0.10 of bonus and 0.02 of tie), and the least recently active of the near ties.
   */
  method Select(q: Query, pool: seq<Account>) returns (r: Option<Account>)
    ensures r.None? <==> forall a :: a in pool ==> !Available(q, a)
    ensures r.Some? ==> IsChoice(q, pool, r.value)
  {
    var available := Keep(q, pool);
    if available == [] {
      return None;
    }
    assert available[0] in available;
    var idle := KeepIdle(q, available);
    var contenders := if idle != [] then idle else available;
    assert idle != [] ==> idle[0] in idle;
    assert forall a :: a in contenders <==> Contends(q, pool, a);
    var best := BestScore(q, contenders);
    var choice := LeastRecent(q, contenders, best);
    return Some(choice);
  }

  /** No process goes to an excluded account, to one without credentials, or to one whose login failed within 15 minutes. */
  lemma {:induction false} Unavailable(q: Query, a: Account)
    requires || a.login in q.exclude || a.configDir !in q.credentials
             || (a.login in q.known.authFailures && q.now < q.known.authFailures[a.login] + 15.0 * 60.0)
    ensures !Available(q, a)
  {
  }

  /** Nobody has read the account, and it has a login that has not just failed. */
  ghost predicate FreshAndHealthy(q: Query, a: Account) {
    && a.login !in q.known.events
    && (forall w :: Speaks(q.known, a.login, w, q.now) && (PlanWide(w) || ScopedTo(w, q.model)) ==> w.utilization.None?)
    && a.login !in q.exclude && a.configDir in q.credentials
    && (a.login in q.known.authFailures ==> q.known.authFailures[a.login] + 900.0 <= q.now)
  }

  /** A pool with an account that nobody has read yet always has a choice, and it is one with room. */
  method SelectFresh(q: Query, pool: seq<Account>, a: Account) returns (r: Option<Account>)
    requires a in pool && FreshAndHealthy(q, a)
    ensures r.Some? && IsChoice(q, pool, r.value) && Available(q, a)
  {
    UnreadIsFree(q.known, a.login, q.model, q.now, q.neverActive);
    assert Available(q, a);
    r := Select(q, pool);
  }

  /** Two accounts: one 42 percent used whose window resets now, one 30 percent used and active last. */
  function BoundQuery(a: string, b: string): Query {
    Query(Known(map[b := Reading(10.0, 0.30, None)],
                map[a := Panel(10.0, [Window(Some(42.0), Some(10.0), None, None)])], map[]),
          {a, b}, None, {}, None, 10.0, 0.0)
  }

  lemma {:induction false} BoundScores(a: string, b: string)
    requires a != b
    ensures var q, x, y := BoundQuery(a, b), Account(a, a), Account(b, b);
            && Contends(q, [x, y], x) && Contends(q, [x, y], y)
            && Score(q, y) - Score(q, x) == SCORE_TIE && LastActive(q, x) < LastActive(q, y)
            && Room(q, y) == Room(q, x) + RESET_BONUS_SCALE + SCORE_TIE
  {
    var w := Window(Some(42.0), Some(10.0), None, None);
    var p := Panel(10.0, [w]);
    assert [w][..0] == [];
    assert LiveOf(p, [], None, 10.0) == [];
    assert LiveOf(p, [w], None, 10.0) == [w];
    assert Highest([w]) == Some(42.0) && Binding([w]) == Some(w);
  }

  /** The bound is met: the choice among these two has exactly 0.12 less headroom than the other. */
  method BoundIsMet(a: string, b: string) returns (choice: Option<Account>)
    requires a != b
    ensures choice == Some(Account(a, a))
    ensures Room(BoundQuery(a, b), Account(b, b)) == Room(BoundQuery(a, b), Account(a, a)) + RESET_BONUS_SCALE + SCORE_TIE
  {
    var q, x, y := BoundQuery(a, b), Account(a, a), Account(b, b);
    BoundScores(a, b);
    choice := Select(q, [x, y]);
    assert Contends(q, [x, y], x);
    OneOfTwo(q, x, y, choice.value);
  }

  /** Of two contenders within the tie, the one inactive for longer is chosen. */
  lemma {:induction false} OneOfTwo(q: Query, x: Account, y: Account, choice: Account)
    requires Contends(q, [x, y], x) && Contends(q, [x, y], y) && IsChoice(q, [x, y], choice)
    requires 0.0 <= Score(q, y) - Score(q, x) <= SCORE_TIE && LastActive(q, x) < LastActive(q, y)
    ensures choice == x
  {
    OtherIsNoChoice(q, x, y);
    assert choice in [x, y];
  }

  lemma {:induction false} OtherIsNoChoice(q: Query, x: Account, y: Account)
    requires Contends(q, [x, y], x)
    requires 0.0 <= Score(q, y) - Score(q, x) <= SCORE_TIE && LastActive(q, x) < LastActive(q, y)
    ensures !IsChoice(q, [x, y], y)
  {
    forall c | Contends(q, [x, y], c) ensures Score(q, c) - Score(q, x) <= SCORE_TIE {
      assert c in [x, y];
    }
  }

  // ---------------------------------------------------------------------------
  // Observations
  // ---------------------------------------------------------------------------

  datatype Status = RejectedStatus | AllowedWarning | OtherStatus

  /** A rate_limit_info payload: the utilizations are those of the two binding windows. */
  datatype Info = Info(status: Status, resetsAt: Option<real>, utilizations: seq<real>)

  function MaxOf(values: seq<real>): real
    requires values != []
  {
    if |values| == 1 then values[0] else Max(MaxOf(values[..|values| - 1]), values[|values| - 1])
  }

  /** The largest of them. */
  lemma {:induction false} MaxOfIs(values: seq<real>)
    requires values != []
    ensures MaxOf(values) in values && forall v :: v in values ==> v <= MaxOf(values)
  {
    var n := |values| - 1;
    assert values == values[..n] + [values[n]];
    if n > 0 {
      MaxOfIs(values[..n]);
    }
  }

  /** The reading a payload teaches, if any. */
  function ReadingOf(info: Info, now: real): Option<Reading> {
    if info.utilizations == [] && !info.status.RejectedStatus? then None
    else Some(Reading(now, if info.utilizations == [] then 1.0 else MaxOf(info.utilizations),
                      if !info.status.RejectedStatus? then None
                      else if info.resetsAt.Some? then info.resetsAt else Some(now + REJECTED_WITHOUT_RESET)))
  }

  class PoolMemory {
    var events: map<string, Reading>
    var panels: map<string, Panel>
    var authFailures: map<string, real>

    constructor ()
      ensures Remembered() == Known(map[], map[], map[])
    {
      events, panels, authFailures := map[], map[], map[];
    }

    function Remembered(): Known
      reads this
    {
      Known(events, panels, authFailures)
    }

    /**
     * A payload teaches nothing exactly when it has no utilization and is no rejection.  Otherwise
     * it becomes the account's newest reading: its utilization is one of the payload's and none of
     * them is higher, a bare rejection fills the window, and only a rejection holds the account,
     * until the reset it names or for an hour.
     */
    method ObserveRateLimit(login: string, info: Info, now: real) returns (reading: Option<Reading>)
      modifies this`events
      ensures reading == ReadingOf(info, now)
      ensures events == if reading.Some? then old(events)[login := reading.value] else old(events)
      ensures reading.None? <==> info.utilizations == [] && !info.status.RejectedStatus?
      ensures reading.Some? && info.utilizations != [] ==>
                reading.value.utilization in info.utilizations
                && forall u :: u in info.utilizations ==> u <= reading.value.utilization
      ensures reading.Some? && info.utilizations == [] ==> reading.value.utilization == 1.0
      ensures reading.Some? ==> reading.value.at == now && (reading.value.rejectedUntil.Some? <==> info.status.RejectedStatus?)
      ensures info.status.RejectedStatus? && info.resetsAt.Some? ==> reading.value.rejectedUntil == info.resetsAt
      ensures info.status.RejectedStatus? && info.resetsAt.None? ==>
                forall later :: now <= later < now + 3600.0 <==> now <= later && Held(reading, later)
    {
      var rejected := info.status.RejectedStatus?;
      if info.utilizations == [] && !rejected { return None; }
      var until: Option<real> := None;
      if rejected {
        until := if info.resetsAt.Some? then info.resetsAt else Some(now + REJECTED_WITHOUT_RESET);
      }
      if info.utilizations != [] {
        MaxOfIs(info.utilizations);
      }
      var r := Reading(now, if info.utilizations == [] then 1.0 else MaxOf(info.utilizations), until);
      events := events[login := r];
      return Some(r);
    }

    method ObserveUsagePanel(login: string, panel: Panel)
      modifies this`panels
      ensures panels == old(panels)[login := panel]
    {
      panels := panels[login := panel];
    }

    method RecordAuthFailure(login: string, now: real)
      modifies this`authFailures
      ensures authFailures == old(authFailures)[login := now]
    {
      authFailures := authFailures[login := now];
    }
  }
}
