/**
 * Derived properties of three rows of models.py: APIKey.is_expired and
 * is_valid, ForumUserSubscription.is_expired, and BlogPost.excerpt. The
 * clock reading is the parameter `now`, in seconds.
 */
module ModelPredicates {
  import opened Wrappers
  import opened Text

  const SecondsPerHour := 3600

  /** APIKey.is_expired: only a key with an expiry date expires, strictly after that date. */
  predicate ApiKeyExpired(expiresAt: Option<int>, now: int) {
    expiresAt.Some? && now > expiresAt.value
  }

  /** APIKey.is_valid: active and not expired. */
  predicate ApiKeyValid(isActive: bool, expiresAt: Option<int>, now: int) {
    isActive && !ApiKeyExpired(expiresAt, now)
  }

  /**
   * Validity only runs out: a key valid now was valid at every earlier time,
   * a key without an expiry date is valid exactly while active, and a key
   * with one is still valid at that very instant.
   */
  lemma ApiKeyValidityRunsOut(isActive: bool, expiresAt: Option<int>, earlier: int, now: int)
    requires earlier <= now
    ensures ApiKeyValid(isActive, expiresAt, now) ==> ApiKeyValid(isActive, expiresAt, earlier)
    ensures expiresAt.None? ==> (ApiKeyValid(isActive, expiresAt, now) <==> isActive)
    ensures expiresAt.Some? && isActive ==> ApiKeyValid(isActive, expiresAt, expiresAt.value)
    ensures expiresAt.Some? ==> (ApiKeyValid(isActive, expiresAt, now) <==> isActive && now <= expiresAt.value)
  {
  }

  /** The subscription value that means "notify forever". */
  const Forever := -1

  /** ForumUserSubscription.is_expired: never for Forever, otherwise strictly after updated_at plus the hours. */
  predicate SubscriptionExpired(notificationHours: int, updatedAt: int, now: int) {
    notificationHours != Forever && now > updatedAt + notificationHours * SecondsPerHour
  }

  /**
   * Under the table's check constraint (Forever, or 1..8760 hours) a
   * subscription touched at some time is live then and for at least an hour
   * after; once expired it stays expired; a Forever subscription never expires.
   */
  lemma {:induction false} SubscriptionLifetime(notificationHours: int, updatedAt: int, now: int, later: int)
    requires notificationHours == Forever || 1 <= notificationHours <= 8760
    requires now <= later
    ensures !SubscriptionExpired(notificationHours, updatedAt, updatedAt + SecondsPerHour)
    ensures SubscriptionExpired(notificationHours, updatedAt, now) ==> SubscriptionExpired(notificationHours, updatedAt, later)
    ensures notificationHours == Forever ==> !SubscriptionExpired(notificationHours, updatedAt, later)
    ensures notificationHours != Forever ==>
      (SubscriptionExpired(notificationHours, updatedAt, now) <==> now - updatedAt > notificationHours * SecondsPerHour)
  {
    if notificationHours != Forever {
      assert notificationHours * SecondsPerHour >= SecondsPerHour;
    }
  }

  const ExcerptLength := 200
  const MinimumCut := 100

  /** BlogPost.excerpt: short bodies whole; long ones cut to 200 characters, back to the last space past index 100, plus "...". */
  function Excerpt(body: string): (r: string)
    ensures |body| <= ExcerptLength ==> r == body
    ensures |body| > ExcerptLength ==>
      && |r| >= 3 && r[|r| - 3..] == "..."
      && MinimumCut + 1 <= |r| - 3 <= ExcerptLength
      && r[..|r| - 3] == body[..|r| - 3]
  {
    if |body| <= ExcerptLength then body
    else
      var head := body[..ExcerptLength];
      var lastSpace := RFind(head, ' ');
      (if lastSpace > MinimumCut then head[..lastSpace] else head) + "..."
  }

  /**
   * Where a long body is cut: at the last space of the first 200 characters
   * when that space lies past index 100 (the space itself is dropped),
   * otherwise after the full 200 characters.
   */
  lemma ExcerptCutsAtLastSpace(body: string)
    requires |body| > ExcerptLength
    ensures var kept := |Excerpt(body)| - 3;
      && (kept < ExcerptLength ==> body[kept] == ' ' && forall j :: kept < j < ExcerptLength ==> body[j] != ' ')
      && (kept == ExcerptLength <==> forall j :: MinimumCut < j < ExcerptLength ==> body[j] != ' ')
  {
    var head := body[..ExcerptLength];
    var lastSpace := RFind(head, ' ');
    var kept := |Excerpt(body)| - 3;
    if lastSpace > MinimumCut {
      assert kept == lastSpace;
      assert head[lastSpace] == ' ';
    } else {
      assert kept == ExcerptLength;
      forall j | MinimumCut < j < ExcerptLength ensures body[j] != ' ' {
        assert head[j] == body[j];
      }
    }
  }
}
