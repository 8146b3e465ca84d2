/** The user serializers: the username check at registration and the `is_subscribed` flag. */
module UserSerializers {
  import opened Base
  import opened UsersModels

  /** Lower-casing of one character; only A-Z change. */
  function LowerChar(c: char): char {
    if 'A' <= c <= 'Z' then (c as int - 'A' as int + 'a' as int) as char else c
  }

  function Lower(s: string): (r: string)
    ensures |r| == |s|
    ensures forall i :: 0 <= i < |s| ==> r[i] == LowerChar(s[i])
  {
    seq(|s|, i requires 0 <= i < |s| => LowerChar(s[i]))
  }

  lemma LowerIsReserved(value: string)
    ensures Lower(value) == ReservedName <==> value in {"me", "Me", "mE", "ME"}
  {
    var l := Lower(value);
    if l == ReservedName {
      assert |value| == 2;
      assert LowerChar(value[0]) == 'm' && LowerChar(value[1]) == 'e';
      assert value[0] == 'm' || value[0] == 'M';
      assert value[1] == 'e' || value[1] == 'E';
      assert value == [value[0], value[1]];
    }
    if value in {"me", "Me", "mE", "ME"} {
      assert l == [l[0], l[1]];
    }
  }

  /**
   * The registration check: "me" is refused in any letter case; every other username is
   * returned unchanged.
   */
  function ValidateUsername(value: string): (r: Result<string>)
    ensures r.Err? <==> value in {"me", "Me", "mE", "ME"}
    ensures r.Err? ==> r.error == ValidationError(ReservedUsername)
    ensures r.Ok? ==> r.value == value
  {
    LowerIsReserved(value);
    if Lower(value) == ReservedName then Err(ValidationError(ReservedUsername)) else Ok(value)
  }

  /** Registration refuses every username the model check refuses, and "Me" besides. */
  lemma ValidateUsernameIsStricterThanClean(value: string)
    ensures ValidateUsername(value).Ok? ==> Clean(value).Pass?
    ensures Clean("Me").Pass? && ValidateUsername("Me").Err?
  {
  }

  /**
   * `is_subscribed` as the query is written: false for an anonymous requester; otherwise true
   * iff some user followed by the requester has `obj` among its subscribers, i.e. iff the
   * requester and `obj` follow a common user.
   */
  function IsSubscribedAsWritten(p: Principal, follows: Follows, obj: UserId): (r: bool)
    ensures p.Anonymous? ==> !r
    ensures p.Authenticated? ==> (r <==> exists v :: (p.id, v) in follows && (obj, v) in follows)
  {
    if p.Anonymous? then false
    else
      var followed := set v | v in Subscriptions(follows, p.id) && obj in Subscribers(follows, v);
      assert followed != {} <==> exists v :: (p.id, v) in follows && (obj, v) in follows by {
        if followed != {} {
          var v :| v in followed;
          assert (p.id, v) in follows && (obj, v) in follows;
        }
        if exists v :: (p.id, v) in follows && (obj, v) in follows {
          var v :| (p.id, v) in follows && (obj, v) in follows;
          assert v in Subscriptions(follows, p.id) && obj in Subscribers(follows, v);
          assert v in followed;
        }
      }
      followed != {}
  }

  /** `is_subscribed` as intended: the requester is authenticated and follows `obj`. */
  function IsSubscribed(p: Principal, follows: Follows, obj: UserId): (r: bool)
    ensures p.Anonymous? ==> !r
    ensures p.Authenticated? ==> (r <==> obj in Subscriptions(follows, p.id))
  {
    p.Authenticated? && (p.id, obj) in follows
  }

  /** The written query misses a direct subscription and reports a shared one. */
  lemma IsSubscribedAsWrittenDisagrees()
    ensures !IsSubscribedAsWritten(Authenticated(1, false), {(1, 2)}, 2)
    ensures IsSubscribed(Authenticated(1, false), {(1, 2)}, 2)
    ensures IsSubscribedAsWritten(Authenticated(1, false), {(1, 3), (2, 3)}, 2)
    ensures !IsSubscribed(Authenticated(1, false), {(1, 3), (2, 3)}, 2)
  {
    assert (1, 3) in {(1, 3), (2, 3)} && (2, 3) in {(1, 3), (2, 3)};
  }
}
