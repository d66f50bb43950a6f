/** The pure parts of src/lib/notificationService.ts: turning the VAPID
    public key from the base64url alphabet (section 5 of RFC 4648) into a
    padded string in the standard alphabet (section 4 of RFC 4648), copying
    the decoded characters into a byte array, the achievement notification
    text, and the default notification settings. */
module Notification {
  import opened Domain

  newtype byte = x: int | 0 <= x < 256

  // ------------------------------------------------------------- padding

  /** `(4 - len % 4) % 4`: the number of "=" characters appended. */
  function PaddingLength(len: nat): (n: nat)
    ensures n <= 3
    ensures (len + n) % 4 == 0
    ensures len % 4 == 0 <==> n == 0
  {
    (4 - len % 4) % 4
  }

  function Repeat(c: char, n: nat): (r: string)
    ensures |r| == n && forall i :: 0 <= i < n ==> r[i] == c
  {
    if n == 0 then [] else [c] + Repeat(c, n - 1)
  }

  /** `base64String + padding`. */
  function Padded(s: string): (r: string)
    ensures |r| % 4 == 0 && |s| <= |r| <= |s| + 3
    ensures r[..|s|] == s
    ensures forall i :: |s| <= i < |r| ==> r[i] == '='
  {
    s + Repeat('=', PaddingLength(|s|))
  }

  /** Padding an already padded string adds nothing. */
  lemma PaddedIdempotent(s: string)
    ensures Padded(Padded(s)) == Padded(s)
  {
  }

  // ------------------------------------------------------------ alphabet

  /** One character of `.replace(/-/g, '+').replace(/_/g, '/')`. */
  function StandardChar(c: char): char
  {
    if c == '-' then '+' else if c == '_' then '/' else c
  }

  /** The inverse mapping, from the standard alphabet to base64url. */
  function UrlChar(c: char): char
  {
    if c == '+' then '-' else if c == '/' then '_' else c
  }

  /** Both replacements over the whole string. */
  function ToStandardAlphabet(s: string): (r: string)
    ensures |r| == |s|
    ensures forall i :: 0 <= i < |s| ==>
      r[i] == (if s[i] == '-' then '+' else if s[i] == '_' then '/' else s[i])
  {
    if s == [] then [] else [StandardChar(s[0])] + ToStandardAlphabet(s[1..])
  }

  function ToUrlAlphabet(s: string): (r: string)
    ensures |r| == |s|
    ensures forall i :: 0 <= i < |s| ==> r[i] == UrlChar(s[i])
  {
    if s == [] then [] else [UrlChar(s[0])] + ToUrlAlphabet(s[1..])
  }

  /** The mapping works character by character, so it distributes over concatenation. */
  lemma {:induction false} ToStandardAppend(a: string, b: string)
    ensures ToStandardAlphabet(a + b) == ToStandardAlphabet(a) + ToStandardAlphabet(b)
  {
    var l, r := ToStandardAlphabet(a + b), ToStandardAlphabet(a) + ToStandardAlphabet(b);
    forall i | 0 <= i < |a + b|
      ensures l[i] == r[i]
    {
      if i < |a| {
        assert (a + b)[i] == a[i];
      } else {
        assert (a + b)[i] == b[i - |a|];
      }
    }
  }

  /** The result holds no base64url-only character. */
  lemma StandardHasNoUrlChars(s: string)
    ensures '-' !in ToStandardAlphabet(s) && '_' !in ToStandardAlphabet(s)
  {
  }

  /** On a base64url string (one without "+" or "/"), the mapping is undone
      by the inverse mapping, so it loses nothing. */
  lemma AlphabetRoundTrip(s: string)
    requires '+' !in s && '/' !in s
    ensures ToUrlAlphabet(ToStandardAlphabet(s)) == s
  {
  }

  /** The string `urlBase64ToUint8Array` hands to `atob`. */
  function DecoderInput(key: string): (r: string)
    ensures |r| % 4 == 0 && |key| <= |r| <= |key| + 3
    ensures ToUrlAlphabet(r[..|key|]) == ToUrlAlphabet(key)
    ensures r[..|key|] == ToStandardAlphabet(key)
    ensures forall i :: |key| <= i < |r| ==> r[i] == '='
    ensures '-' !in r && '_' !in r
  {
    var r := ToStandardAlphabet(Padded(key));
    ToStandardAppend(key, Repeat('=', PaddingLength(|key|)));
    StandardHasNoUrlChars(Padded(key));
    assert forall i :: 0 <= i < |key| ==> UrlChar(r[i]) == UrlChar(key[i]);
    r
  }

  // ----------------------------------------------------------- copy loop

  /** `Uint8Array` stores a character code modulo 256. */
  function ByteOf(c: char): byte
  {
    (c as int % 256) as byte
  }

  /** The loop of `urlBase64ToUint8Array` over the string `atob` returned:
      a new array of the same length whose element `i` is the code of
      character `i`. */
  method CopyToBytes(rawData: string) returns (output: array<byte>)
    ensures fresh(output)
    ensures output.Length == |rawData|
    ensures forall i :: 0 <= i < |rawData| ==> output[i] == ByteOf(rawData[i])
    ensures forall i :: 0 <= i < |rawData| && rawData[i] as int < 256 ==> output[i] as int == rawData[i] as int
  {
    output := new byte[|rawData|];
    var i := 0;
    while i < |rawData|
      invariant 0 <= i <= |rawData|
      invariant forall k :: 0 <= k < i ==> output[k] == ByteOf(rawData[k])
    {
      output[i] := ByteOf(rawData[i]);
      i := i + 1;
    }
  }

  // -------------------------------------------------------- notifications

  /** `sendAchievementNotification`'s body: icon, a space, title, a colon and
      a space, then the description. */
  function AchievementBody(icon: string, title: string, description: string): (r: string)
    ensures |r| == |icon| + |title| + |description| + 3
    ensures r[..|icon|] == icon && r[|icon|] == ' '
    ensures r[|icon| + 1..|icon| + 1 + |title|] == title
    ensures r[|icon| + 1 + |title|..|icon| + 3 + |title|] == ": "
    ensures r[|r| - |description|..] == description
  {
    icon + " " + title + ": " + description
  }

  // ------------------------------------------------------------- settings

  datatype NotificationSettings = NotificationSettings(
    dailyReminders: bool,
    weeklyReports: bool,
    achievementAlerts: bool,
    emergencyContacts: seq<string>,
    reminderTime: string,
    pushEnabled: bool)

  const DefaultSettings: NotificationSettings :=
    NotificationSettings(true, true, true, [], "09:00", false)

  /** `getNotificationSettings`: the stored record when there is one,
      otherwise the defaults. `stored` is what the settings table held. */
  function GetNotificationSettings(stored: Option<NotificationSettings>): (r: NotificationSettings)
    ensures stored.Some? ==> r == stored.value
    ensures stored.None? ==> r.dailyReminders && r.weeklyReports && r.achievementAlerts
    ensures stored.None? ==> r.emergencyContacts == [] && r.reminderTime == "09:00" && !r.pushEnabled
  {
    if stored.Some? then stored.value else DefaultSettings
  }
}
