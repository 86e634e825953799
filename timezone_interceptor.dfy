/** The timezone interceptor of content/modules/interceptors/timezone.js: the patched `Date`
    and `Intl.DateTimeFormat` entry points, on the caller's and the native call's objects,
    which they change in place. */
module TimezoneInterception {
  import opened JsValues
  import opened TimezoneFormat

  class TimezoneInterceptor {
    const profile: TimezoneProfile

    /** `new TimezoneInterceptor(profile, state)`. */
    constructor (profile: TimezoneProfile)
      ensures this.profile == profile
    {
      this.profile := profile;
    }

    /** The patched `getTimezoneOffset`: the profile's offset, whatever the date; for an
        offset under 100 hours it is exactly what the `±HHMM` text of `getGMTOffset` reads
        back as. */
    function GetTimezoneOffset(date: Value): (offset: int)
      ensures Magnitude(offset) < 6000 ==> ParseGmtOffset(GmtOffset(profile.offset)) == Some(offset)
    {
      if Magnitude(profile.offset) < 6000 then
        GmtOffsetRoundTrip(profile.offset);
        profile.offset
      else profile.offset
    }

    /** Every date reports the same offset, and it is the one the patched `toString` prints:
        the five characters after `GMT` in the stamp read back as it. */
    lemma OffsetAgreesWithText(date: Value, other: Value)
      requires Magnitude(profile.offset) < 6000
      ensures GetTimezoneOffset(date) == GetTimezoneOffset(other)
      ensures ParseGmtOffset(Stamp(profile)[3..8]) == Some(GetTimezoneOffset(date))
    {
      var g := GmtOffset(profile.offset);
      assert |g| == 5;
      assert Stamp(profile)[3..8] == g;
    }

    /** Shared by the patched `toLocaleString`, `toLocaleDateString`, `toLocaleTimeString` and
        `new Intl.DateTimeFormat(...)`: the locale falls back to the profile's when the first
        argument is falsy; the options object is the caller's (`options`, changed in place)
        or a fresh `{}` when the second argument is falsy (`null`), with `timeZone` injected
        unless the caller set one. */
    method InjectOptions(locales: Value, options: JsObject?) returns (locale: Value, passed: JsObject)
      modifies options
      ensures locale == Or(locales, Str(profile.locale))
      ensures options != null ==> passed == options
      ensures options == null ==> fresh(passed)
      ensures passed.props == WithTimeZone(if options == null then map[] else old(options.props), profile.name)
    {
      locale := if Truthy(locales) then locales else Str(profile.locale);
      if options == null {
        passed := new JsObject(map[]);
      } else {
        passed := options;
      }
      if !Truthy(Get(passed.props, "timeZone")) {
        passed.props := passed.props["timeZone" := Str(profile.name)];
      }
    }

    /** The patched `resolvedOptions()` on the object the native call returned: `timeZone`
        overwritten, `locale` overwritten when falsy or `'en-US'`. */
    method ResolvedOptions(result: JsObject)
      modifies result
      ensures result.props == Resolved(old(result.props), profile)
    {
      result.props := result.props["timeZone" := Str(profile.name)];
      var l := Get(result.props, "locale");
      if !Truthy(l) || l == Str("en-US") {
        result.props := result.props["locale" := Str(profile.locale)];
      }
    }

    /** The patched `Intl.DateTimeFormat.supportedLocalesOf(locales)` on the array the native
        call returned: the profile's locale pushed when requested in an array and missing. */
    method SupportedLocalesOf(locales: Value, result: JsArray)
      modifies result
      ensures result.elems == WithLocale(old(result.elems), locales, profile.locale)
    {
      if locales.Arr? && Str(profile.locale) in locales.elems {
        if Str(profile.locale) !in result.elems {
          result.elems := result.elems + [Str(profile.locale)];
        }
      }
    }
  }
}
