/** The newsletter: subscribing and unsubscribing by e-mail address, and the public count of
    active subscribers. Addresses are compared after trimming and lower-casing. */
module Newsletter {
  import opened Wrappers
  import opened Bytes
  import opened Text
  import opened Types
  import opened Store
  import Table
  import Ids

  const InvalidEmail: string := "Valid email is required"
  const AlreadySubscribed: string := "Already subscribed"
  const WelcomeBack: string := "Welcome back!"
  const Subscribed: string := "Successfully subscribed!"
  const NotSubscribed: string := "Email not found or already unsubscribed"
  const UnsubscribedReply: string := "Successfully unsubscribed"
  const DefaultSource: string := "website"
  const IdPrefix: string := "nl"

  // ---------------------------------------------------------------- addresses

  predicate IsAsciiLetter(c: char) {
    IsAsciiLower(c) || IsAsciiUpper(c)
  }

  /** `[a-zA-Z0-9._%+-]`. */
  predicate IsLocalChar(c: char) {
    IsAsciiLetter(c) || IsAsciiDigit(c) || c in "._%+-"
  }

  /** `[a-zA-Z0-9.-]`. */
  predicate IsDomainChar(c: char) {
    IsAsciiLetter(c) || IsAsciiDigit(c) || c in ".-"
  }

  predicate LocalPart(s: string) {
    |s| > 0 && forall i :: 0 <= i < |s| ==> IsLocalChar(s[i])
  }

  predicate DomainName(s: string) {
    |s| > 0 && forall i :: 0 <= i < |s| ==> IsDomainChar(s[i])
  }

  predicate TopLevel(s: string) {
    |s| >= 2 && forall i :: 0 <= i < |s| ==> IsAsciiLetter(s[i])
  }

  /** `[a-zA-Z0-9.-]+\.[a-zA-Z]{2,}`: some dot splits it into a name and a top-level label. */
  predicate DomainPart(d: string) {
    exists k :: 0 <= k < |d| && d[k] == '.' && DomainName(d[..k]) && TopLevel(d[k + 1..])
  }

  /** The address pattern `^[a-zA-Z0-9._%+-]+@[a-zA-Z0-9.-]+\.[a-zA-Z]{2,}$`. */
  predicate MatchesEmail(s: string) {
    exists at :: 0 <= at < |s| && s[at] == '@' && LocalPart(s[..at]) && DomainPart(s[at + 1..])
  }

  lemma LocalNoAt(u: string)
    requires LocalPart(u)
    ensures forall x :: 0 <= x < |u| ==> u[x] != '@'
  {
  }

  lemma DomainNoAt(d: string)
    requires DomainPart(d)
    ensures forall x :: 0 <= x < |d| ==> d[x] != '@'
  {
    var k :| 0 <= k < |d| && d[k] == '.' && DomainName(d[..k]) && TopLevel(d[k + 1..]);
    forall x | 0 <= x < |d| ensures d[x] != '@' {
      if x < k {
        assert d[x] == d[..k][x];
      } else if x > k {
        assert d[x] == d[k + 1..][x - k - 1];
      }
    }
  }

  /** Neither side of the pattern admits `@`, so a matching address has exactly one. */
  lemma OneAtSign(s: string, i: nat, j: nat)
    requires MatchesEmail(s)
    requires i < |s| && j < |s| && s[i] == '@' && s[j] == '@'
    ensures i == j
  {
    var at :| 0 <= at < |s| && s[at] == '@' && LocalPart(s[..at]) && DomainPart(s[at + 1..]);
    var u, d := s[..at], s[at + 1..];
    LocalNoAt(u);
    DomainNoAt(d);
    assert forall x :: 0 <= x < at ==> s[x] == u[x];
    assert forall x :: at < x < |s| ==> s[x] == d[x - at - 1];
  }

  lemma Examples()
    ensures MatchesEmail("a@b.co")
    ensures !MatchesEmail("a@b.c")
  {
    var s := "a@b.co";
    assert s[..1] == "a" && s[2..] == "b.co";
    var d := "b.co";
    assert d[..1] == "b" && d[2..] == "co";
    assert DomainPart(d);
    var t := "a@b.c";
    forall at | 0 <= at < |t| && t[at] == '@' ensures !DomainPart(t[at + 1..]) {
      assert at == 1;
      var e := t[2..];
      assert e == "b.c";
      forall k | 0 <= k < |e| && e[k] == '.' ensures !TopLevel(e[k + 1..]) {
        assert k == 1;
      }
    }
  }

  /** `email?.trim().toLowerCase()`. */
  function Normalize(email: Option<string>): (r: Option<string>)
    ensures r.Some? <==> email.Some?
    ensures r.Some? ==> |r.value| <= |email.value| && forall i :: 0 <= i < |r.value| ==> !IsAsciiUpper(r.value[i])
  {
    match email
    case None => None
    case Some(e) => Some(ToLower(Trim(e)))
  }

  /** A string whose ends are not whitespace is its own trim. */
  lemma TrimNoop(u: string)
    requires |u| > 0 ==> !IsJsWhitespace(u[0]) && !IsJsWhitespace(u[|u| - 1])
    ensures Trim(u) == u
  {
  }

  /** Normalising a normalised address changes nothing. */
  lemma NormalizeIdempotent(e: string)
    ensures Normalize(Normalize(Some(e))) == Normalize(Some(e))
  {
    var s := TrimStart(e);
    var t := TrimEnd(s);
    var u := ToLower(t);
    if |t| > 0 {
      assert t[0] == s[0];
      assert !IsJsWhitespace(u[0]) && !IsJsWhitespace(u[|u| - 1]);
    }
    TrimNoop(u);
    ToLowerIdempotent(t);
  }

  /** The address a request names, once normalised, when it is present and matches the pattern. */
  function ValidAddress(email: Option<string>): (r: Option<string>)
    ensures r.Some? <==> email.Some? && MatchesEmail(Normalize(email).value)
    ensures r.Some? ==> r == Normalize(email) && r.value != ""
  {
    var e := Normalize(email);
    if e.None? || e.value == "" || !MatchesEmail(e.value) then None else e
  }

  // ---------------------------------------------------------------- subscribe

  datatype SubscribeInput = SubscribeInput(email: Option<string>, name: Option<string>,
                                           locale: Option<string>, source: Option<string>)

  /** The `data` of an answer and the status it is sent with. */
  datatype Reply = Reply(status: nat, message: string, id: Option<string>)

  /** `body.name?.trim() || null`. */
  function NameOf(name: Option<string>): (r: Option<string>)
    ensures r.Some? ==> name.Some? && r.value == Trim(name.value) && r.value != ""
    ensures name.Some? && Trim(name.value) != "" ==> r.Some?
  {
    if name.Some? && Trim(name.value) != "" then Some(Trim(name.value)) else None
  }

  /** `'zh'` only for exactly `'zh'`, otherwise `'en'`. */
  function LocaleOf(locale: Option<string>): (r: string)
    ensures r == "zh" <==> locale == Some("zh")
    ensures r == "zh" || r == "en"
  {
    if locale == Some("zh") then "zh" else "en"
  }

  function ByEmail(st: State, email: string): (r: Option<Subscriber>)
    ensures r.Some? ==> r.value in st.subscribers && r.value.email == email
    ensures r.None? <==> forall i :: 0 <= i < |st.subscribers| ==> st.subscribers[i].email != email
  {
    Table.First(st.subscribers, (s: Subscriber) => s.email == email)
  }

  /** The row of a returning subscriber: active again, its locale and name replaced. */
  function Reactivated(s: Subscriber, locale: string, name: Option<string>): Subscriber {
    s.(status := Active, unsubscribedAt := None, locale := locale, name := name)
  }

  function NewSubscriber(id: string, email: string, input: SubscribeInput, now: nat): Subscriber {
    Subscriber(id, email, NameOf(input.name), LocaleOf(input.locale), OrElse(input.source, DefaultSource),
               Active, now, None)
  }

  /** The rows after reactivating the row with id `id`: each row with that id is rewritten, the
      others are kept. */
  predicate ReactivatedRows(xs: seq<Subscriber>, ys: seq<Subscriber>, id: string, locale: string,
                            name: Option<string>) {
    |ys| == |xs| &&
    forall i :: 0 <= i < |xs| ==> ys[i] == if xs[i].id == id then Reactivated(xs[i], locale, name) else xs[i]
  }

  /** An address that is already on the list: active, it is answered as such and nothing
      changes; inactive, its row is reactivated in place, keeping its id, address, source and
      subscription time. */
  function Resubscribe(st: State, s: Subscriber, input: SubscribeInput): (r: Outcome<Reply>)
    ensures r.result == Ok(Reply(200, if s.status == Active then AlreadySubscribed else WelcomeBack, Some(s.id)))
    ensures s.status == Active ==> r.state == st
    ensures s.status != Active ==>
              r.state == st.(subscribers := r.state.subscribers) &&
              ReactivatedRows(st.subscribers, r.state.subscribers, s.id, LocaleOf(input.locale), NameOf(input.name))
  {
    if s.status == Active then Outcome(st, Ok(Reply(200, AlreadySubscribed, Some(s.id))))
    else
      var locale, name := LocaleOf(input.locale), NameOf(input.name);
      var rows := Table.UpdateWhere(st.subscribers, (x: Subscriber) => x.id == s.id,
                                    (x: Subscriber) => Reactivated(x, locale, name));
      Outcome(st.(subscribers := rows), Ok(Reply(200, WelcomeBack, Some(s.id))))
  }

  /** A new address: inserted active under a fresh `nl_` id and answered 201, or refused by the
      row store when the id is taken. */
  function Enrol(st: State, email: string, input: SubscribeInput, now: nat, idBytes: seq<byte>): (r: Outcome<Reply>)
    ensures var id := Ids.GenerateId(IdPrefix, idBytes);
            (r.result.Ok? <==> forall i :: 0 <= i < |st.subscribers| ==> st.subscribers[i].id != id) &&
            (r.result.Ok? ==> r == Outcome(st.(subscribers := st.subscribers + [NewSubscriber(id, email, input, now)]),
                                           Ok(Reply(201, Subscribed, Some(id))))) &&
            (r.result.Err? ==> r == Outcome(st, Err(Thrown(DuplicateKey))))
  {
    var id := Ids.GenerateId(IdPrefix, idBytes);
    if Table.Any(st.subscribers, (x: Subscriber) => x.id == id) then Outcome(st, Err(Thrown(DuplicateKey)))
    else Outcome(st.(subscribers := st.subscribers + [NewSubscriber(id, email, input, now)]),
                 Ok(Reply(201, Subscribed, Some(id))))
  }

  /** `POST /newsletter/subscribe`. An invalid address is refused with 400 and no change; an
      address already on the list is resubscribed; a new one is enrolled. */
  function Subscribe(st: State, now: nat, input: SubscribeInput, idBytes: seq<byte>): (r: Outcome<Reply>)
    ensures ValidAddress(input.email).None? ==> r == Outcome(st, Err(HttpError(400, InvalidEmail)))
    ensures ValidAddress(input.email).Some? && ByEmail(st, ValidAddress(input.email).value).Some? ==>
              var s := ByEmail(st, ValidAddress(input.email).value).value;
              r.result == Ok(Reply(200, if s.status == Active then AlreadySubscribed else WelcomeBack, Some(s.id)))
    ensures ValidAddress(input.email).Some? && ByEmail(st, ValidAddress(input.email).value).None? ==>
              var id := Ids.GenerateId(IdPrefix, idBytes);
              (r.result.Ok? <==> forall i :: 0 <= i < |st.subscribers| ==> st.subscribers[i].id != id) &&
              (r.result.Ok? ==> r.result.value == Reply(201, Subscribed, Some(id)))
    ensures r.state == st.(subscribers := r.state.subscribers)
  {
    match ValidAddress(input.email)
    case None => Outcome(st, Err(HttpError(400, InvalidEmail)))
    case Some(email) =>
      match ByEmail(st, email)
      case Some(s) => Resubscribe(st, s, input)
      case None => Enrol(st, email, input, now, idBytes)
  }

  // ---------------------------------------------------------------- unsubscribe

  predicate ActiveWith(s: Subscriber, email: string) {
    s.email == email && s.status == Active
  }

  function Deactivated(s: Subscriber, now: nat): Subscriber {
    s.(status := Unsubscribed, unsubscribedAt := Some(now))
  }

  /** `POST /newsletter/unsubscribe`: every active row with the address becomes unsubscribed;
      when there was none, the answer is 404. */
  function Unsubscribe(st: State, now: nat, email: Option<string>): (r: Outcome<Reply>)
    ensures ValidAddress(email).None? ==> r == Outcome(st, Err(HttpError(400, InvalidEmail)))
    ensures ValidAddress(email).Some? ==>
              var e := ValidAddress(email).value;
              (r.result.Ok? <==> exists i :: 0 <= i < |st.subscribers| && ActiveWith(st.subscribers[i], e)) &&
              (r.result.Err? ==> r == Outcome(st, Err(HttpError(404, NotSubscribed)))) &&
              (r.result.Ok? ==> r.result.value == Reply(200, UnsubscribedReply, None))
    ensures r.state == st.(subscribers := r.state.subscribers) && |r.state.subscribers| == |st.subscribers|
    ensures ValidAddress(email).Some? ==>
              forall i :: 0 <= i < |st.subscribers| ==>
                r.state.subscribers[i] == if ActiveWith(st.subscribers[i], ValidAddress(email).value)
                                          then Deactivated(st.subscribers[i], now) else st.subscribers[i]
  {
    match ValidAddress(email)
    case None => Outcome(st, Err(HttpError(400, InvalidEmail)))
    case Some(e) =>
      var p := (s: Subscriber) => ActiveWith(s, e);
      if Table.Count(st.subscribers, p) == 0 then
        Table.UpdateNothing(st.subscribers, p, (s: Subscriber) => Deactivated(s, now));
        Outcome(st, Err(HttpError(404, NotSubscribed)))
      else
        Outcome(st.(subscribers := Table.UpdateWhere(st.subscribers, p, (s: Subscriber) => Deactivated(s, now))),
                Ok(Reply(200, UnsubscribedReply, None)))
  }

  // ---------------------------------------------------------------- stats

  predicate IsActive(s: Subscriber) {
    s.status == Active
  }

  /** `GET /newsletter/stats`: the number of active subscribers. */
  function ActiveCount(st: State): (n: nat)
    ensures n <= |st.subscribers|
    ensures n == 0 <==> forall i :: 0 <= i < |st.subscribers| ==> st.subscribers[i].status != Active
  {
    Table.Count(st.subscribers, IsActive)
  }

  // ---------------------------------------------------------------- properties

  /** After reactivating the first row with an address, the lookup finds that row, active. */
  lemma ReactivatedFound(xs: seq<Subscriber>, ys: seq<Subscriber>, email: string, i: nat, locale: string,
                         name: Option<string>)
    requires i < |xs| && xs[i].email == email && forall j :: 0 <= j < i ==> xs[j].email != email
    requires ReactivatedRows(xs, ys, xs[i].id, locale, name)
    ensures Table.First(ys, (x: Subscriber) => x.email == email) == Some(Reactivated(xs[i], locale, name))
  {
    assert ys[i] == Reactivated(xs[i], locale, name);
    assert forall j :: 0 <= j < i ==> ys[j].email == xs[j].email;
    Table.FirstAt(ys, (x: Subscriber) => x.email == email, i);
  }

  /** After appending a row with an address no earlier row has, the lookup finds it. */
  lemma AppendedFound(xs: seq<Subscriber>, n: Subscriber)
    requires forall j :: 0 <= j < |xs| ==> xs[j].email != n.email
    ensures Table.First(xs + [n], (x: Subscriber) => x.email == n.email) == Some(n)
  {
    assert forall j :: 0 <= j < |xs| ==> (xs + [n])[j] == xs[j];
    assert (xs + [n])[|xs|] == n;
    Table.FirstAt(xs + [n], (x: Subscriber) => x.email == n.email, |xs|);
  }

  /** Right after a successful subscribe, looking the address up finds an active row with the
      id the answer named. */
  lemma SubscribedIsFound(st: State, now: nat, input: SubscribeInput, idBytes: seq<byte>)
    requires Subscribe(st, now, input, idBytes).result.Ok?
    ensures var r := Subscribe(st, now, input, idBytes);
            var found := ByEmail(r.state, ValidAddress(input.email).value);
            found.Some? && found.value.status == Active && Some(found.value.id) == r.result.value.id
  {
    var email := ValidAddress(input.email).value;
    var xs := st.subscribers;
    match ByEmail(st, email)
    case Some(s) =>
      if s.status != Active {
        var r := Resubscribe(st, s, input);
        var k := Table.FindIndex(xs, (x: Subscriber) => x.email == email);
        ReactivatedFound(xs, r.state.subscribers, email, k.value, LocaleOf(input.locale), NameOf(input.name));
      }
    case None =>
      var n := NewSubscriber(Ids.GenerateId(IdPrefix, idBytes), email, input, now);
      AppendedFound(xs, n);
  }

  /** Subscribing twice is the same as subscribing once: the second request changes nothing and
      answers "Already subscribed" with the same id. */
  lemma SubscribeIdempotent(st: State, now: nat, input: SubscribeInput, idBytes: seq<byte>,
                            later: nat, input2: SubscribeInput, idBytes2: seq<byte>)
    requires Subscribe(st, now, input, idBytes).result.Ok?
    requires Normalize(input2.email) == Normalize(input.email)
    ensures var first := Subscribe(st, now, input, idBytes);
            Subscribe(first.state, later, input2, idBytes2) ==
              Outcome(first.state, Ok(Reply(200, AlreadySubscribed, first.result.value.id)))
  {
    SubscribedIsFound(st, now, input, idBytes);
  }

  /** After a successful subscribe, unsubscribing the same address succeeds. */
  lemma SubscribeThenUnsubscribe(st: State, now: nat, input: SubscribeInput, idBytes: seq<byte>, later: nat)
    requires Subscribe(st, now, input, idBytes).result.Ok?
    ensures Unsubscribe(Subscribe(st, now, input, idBytes).state, later, input.email).result.Ok?
  {
    SubscribedIsFound(st, now, input, idBytes);
    var s := Subscribe(st, now, input, idBytes).state;
    var found := ByEmail(s, ValidAddress(input.email).value).value;
    var i :| 0 <= i < |s.subscribers| && s.subscribers[i] == found;
    assert ActiveWith(s.subscribers[i], ValidAddress(input.email).value);
  }

  /** Unsubscribing twice: the second request finds nothing active, answers 404 and changes
      nothing. */
  lemma UnsubscribeTwice(st: State, now: nat, email: Option<string>, later: nat)
    requires Unsubscribe(st, now, email).result.Ok?
    ensures var first := Unsubscribe(st, now, email);
            Unsubscribe(first.state, later, email) == Outcome(first.state, Err(HttpError(404, NotSubscribed)))
  {
    var e := ValidAddress(email).value;
    var after := Unsubscribe(st, now, email).state.subscribers;
    forall i | 0 <= i < |after| ensures !ActiveWith(after[i], e) {
    }
  }

  /** Unsubscribing removes from the active count exactly the rows it deactivated. */
  lemma UnsubscribeCount(st: State, now: nat, email: Option<string>)
    requires ValidAddress(email).Some?
    ensures var e := ValidAddress(email).value;
            ActiveCount(Unsubscribe(st, now, email).state) + Table.Count(st.subscribers, (s: Subscriber) => ActiveWith(s, e))
              == ActiveCount(st)
  {
    var e := ValidAddress(email).value;
    CountDeactivated(st.subscribers, e, now, Unsubscribe(st, now, email).state.subscribers);
  }

  lemma {:induction false} CountDeactivated(xs: seq<Subscriber>, e: string, now: nat, ys: seq<Subscriber>)
    requires |ys| == |xs|
    requires forall i :: 0 <= i < |xs| ==> ys[i] == if ActiveWith(xs[i], e) then Deactivated(xs[i], now) else xs[i]
    ensures Table.Count(ys, IsActive) + Table.Count(xs, (s: Subscriber) => ActiveWith(s, e)) == Table.Count(xs, IsActive)
  {
    if |xs| > 0 {
      CountDeactivated(xs[1..], e, now, ys[1..]);
    }
  }

  /** A subscribe that inserts or reactivates adds one to the active count, when ids are
      unique; one that finds the address already active leaves the count as it was. */
  lemma SubscribeCount(st: State, now: nat, input: SubscribeInput, idBytes: seq<byte>)
    requires Subscribe(st, now, input, idBytes).result.Ok?
    requires forall i, j :: 0 <= i < j < |st.subscribers| ==> st.subscribers[i].id != st.subscribers[j].id
    ensures var r := Subscribe(st, now, input, idBytes);
            ActiveCount(r.state) == ActiveCount(st) + (if r.result.value.message == AlreadySubscribed then 0 else 1)
  {
    var email := ValidAddress(input.email).value;
    var xs := st.subscribers;
    match ByEmail(st, email)
    case Some(s) =>
      if s.status != Active {
        var k := Table.FindIndex(xs, (x: Subscriber) => x.email == email);
        ReactivatedCount(xs, Resubscribe(st, s, input).state.subscribers, k.value, LocaleOf(input.locale), NameOf(input.name));
      }
    case None =>
      CountAppend(xs, NewSubscriber(Ids.GenerateId(IdPrefix, idBytes), email, input, now), IsActive);
  }

  /** With unique ids, reactivating an inactive row rewrites that row alone: one more active. */
  lemma ReactivatedCount(xs: seq<Subscriber>, ys: seq<Subscriber>, i: nat, locale: string, name: Option<string>)
    requires forall a, b :: 0 <= a < b < |xs| ==> xs[a].id != xs[b].id
    requires i < |xs| && xs[i].status != Active
    requires ReactivatedRows(xs, ys, xs[i].id, locale, name)
    ensures Table.Count(ys, IsActive) == Table.Count(xs, IsActive) + 1
  {
    var y := Reactivated(xs[i], locale, name);
    forall j | 0 <= j < |xs| ensures ys[j] == xs[i := y][j] {
      if j != i {
        assert xs[j].id != xs[i].id;
      }
    }
    assert ys == xs[i := y];
    CountReplace(xs, i, y, IsActive);
  }

  lemma {:induction false} CountReplace<T>(xs: seq<T>, i: nat, y: T, p: T -> bool)
    requires i < |xs|
    ensures Table.Count(xs[i := y], p) + (if p(xs[i]) then 1 else 0) == Table.Count(xs, p) + (if p(y) then 1 else 0)
  {
    if i > 0 {
      assert xs[i := y][1..] == xs[1..][i - 1 := y];
      CountReplace(xs[1..], i - 1, y, p);
    } else {
      assert xs[i := y][1..] == xs[1..];
    }
  }

  lemma {:induction false} CountAppend<T>(xs: seq<T>, x: T, p: T -> bool)
    ensures Table.Count(xs + [x], p) == Table.Count(xs, p) + (if p(x) then 1 else 0)
  {
    if |xs| > 0 {
      assert (xs + [x])[1..] == xs[1..] + [x];
      CountAppend(xs[1..], x, p);
    } else {
      assert (xs + [x])[1..] == [];
    }
  }
}
