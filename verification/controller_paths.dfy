/** The pure string side of controller loading (loader.ts, lines 31-46):
    how a controller file's module-relative path determines the class name
    it must export and the route it is registered at. */
module ControllerPaths {
  import opened Strings

  /** The first regular-expression pass, `replace(/\/([a-z])/g, upper)`:
      scanning left to right, each `/` directly followed by a lower-case
      ASCII letter is replaced by that letter upper-cased. */
  function UpperAfterSlash(s: string): (r: string)
    ensures |r| <= |s|
    ensures |s| > 0 ==> |r| > 0 && (!IsLower(s[0]) ==> !IsLower(r[0]))
    ensures forall i :: 0 <= i < |r| - 1 && r[i] == '/' ==> !IsLower(r[i + 1])
    decreases |s|
  {
    if |s| == 0 then ""
    else if |s| >= 2 && s[0] == '/' && IsLower(s[1]) then [ToUpper(s[1])] + UpperAfterSlash(s[2..])
    else [s[0]] + UpperAfterSlash(s[1..])
  }

  /** The second pass, `replace(/\//g, '')`: every `/` removed. */
  function StripSlashes(s: string): (r: string)
    ensures '/' !in r
    ensures |r| <= |s|
    ensures forall ch :: ch in r <==> ch in s && ch != '/'
  {
    if |s| == 0 then ""
    else (if s[0] == '/' then "" else [s[0]]) + StripSlashes(s[1..])
  }

  /** The class name a controller at relative path `p` must export. */
  function ClassNameOf(p: string): (r: string)
    ensures '/' !in r
    ensures |r| <= |p|
  {
    StripSlashes(UpperAfterSlash(p))
  }

  /** Reference definition, character by character: the path with each
      lower-case letter that directly follows a `/` upper-cased and
      every other character (slashes included) left where it is. */
  function CapitalizeAfterSlash(s: string): (r: string)
    ensures |r| == |s|
    ensures forall i :: 0 < i < |s| && s[i - 1] == '/' ==> r[i] == ToUpper(s[i])
    ensures forall i :: 0 <= i < |s| && (i == 0 || s[i - 1] != '/') ==> r[i] == s[i]
  {
    seq(|s|, i requires 0 <= i < |s| => if 0 < i && s[i - 1] == '/' then ToUpper(s[i]) else s[i])
  }

  /** The route of a controller at relative path `p`:
      `replace(/\/index$/g, '/')` turns a trailing `/index` into `/`. */
  function RouteOf(p: string): (r: string)
    ensures EndsWith(p, "/index") ==> r + "index" == p && EndsWith(r, "/")
    ensures !EndsWith(p, "/index") ==> r == p
  {
    if EndsWith(p, "/index") then p[..|p| - 6] + "/" else p
  }

  lemma StripSlashesAppend(a: string, b: string)
    ensures StripSlashes(a + b) == StripSlashes(a) + StripSlashes(b)
    decreases |a|
  {
    if |a| == 0 {
      assert a + b == b;
    } else {
      assert (a + b)[1..] == a[1..] + b;
      StripSlashesAppend(a[1..], b);
    }
  }

  /** Splitting the reference definition after its first character, when
      that character does not start a `/x` match. */
  lemma CapitalizeAfterSlashCons(s: string)
    requires |s| >= 1
    requires !(s[0] == '/' && |s| >= 2 && IsLower(s[1]))
    ensures CapitalizeAfterSlash(s) == [s[0]] + CapitalizeAfterSlash(s[1..])
  {
    var l := CapitalizeAfterSlash(s);
    var r := [s[0]] + CapitalizeAfterSlash(s[1..]);
    forall i | 0 <= i < |s| ensures l[i] == r[i] {
      if i == 1 && s[0] == '/' {
        assert ToUpper(s[1]) == s[1];
      }
    }
  }

  /** Splitting the reference definition after a `/x` match. */
  lemma CapitalizeAfterSlashMatch(s: string)
    requires |s| >= 2 && s[0] == '/' && IsLower(s[1])
    ensures CapitalizeAfterSlash(s) == ['/', ToUpper(s[1])] + CapitalizeAfterSlash(s[2..])
  {
    var l := CapitalizeAfterSlash(s);
    var r := ['/', ToUpper(s[1])] + CapitalizeAfterSlash(s[2..]);
    forall i | 0 <= i < |s| ensures l[i] == r[i] {
    }
  }

  /** The two regular-expression passes agree with the character-wise
      reading: the class name is the path with the letter after each `/`
      upper-cased, and then every `/` dropped. */
  lemma {:induction false} ClassNameIsCharwise(p: string)
    ensures ClassNameOf(p) == StripSlashes(CapitalizeAfterSlash(p))
    decreases |p|
  {
    if |p| == 0 {
    } else if |p| >= 2 && p[0] == '/' && IsLower(p[1]) {
      var u := ToUpper(p[1]);
      var rest := UpperAfterSlash(p[2..]);
      CapitalizeAfterSlashMatch(p);
      ClassNameIsCharwise(p[2..]);
      StripSlashesAppend(['/', u], CapitalizeAfterSlash(p[2..]));
      StripSlashesAppend([u], rest);
      assert StripSlashes(['/', u]) == [u] by {
        assert ['/', u][1..] == [u];
        assert [u][1..] == [];
      }
      assert StripSlashes([u]) == [u] by {
        assert [u][1..] == [];
      }
    } else {
      var rest := UpperAfterSlash(p[1..]);
      CapitalizeAfterSlashCons(p);
      ClassNameIsCharwise(p[1..]);
      StripSlashesAppend([p[0]], CapitalizeAfterSlash(p[1..]));
      StripSlashesAppend([p[0]], rest);
    }
  }

  /** The number of `/` characters in `s`. */
  function SlashCount(s: string): nat {
    if |s| == 0 then 0 else (if s[0] == '/' then 1 else 0) + SlashCount(s[1..])
  }

  /** Only slashes disappear: the class name is as long as the path
      without its slashes, and contains none. */
  lemma {:induction false} ClassNameLength(p: string)
    ensures |ClassNameOf(p)| == |p| - SlashCount(p)
    ensures '/' !in ClassNameOf(p)
  {
    ClassNameIsCharwise(p);
    StripSlashesLength(CapitalizeAfterSlash(p));
    SlashCountCapitalize(p);
  }

  lemma {:induction false} StripSlashesLength(s: string)
    ensures |StripSlashes(s)| == |s| - SlashCount(s)
    decreases |s|
  {
    if |s| > 0 {
      StripSlashesLength(s[1..]);
    }
  }

  /** Upper-casing never creates or destroys a slash. */
  lemma SlashCountCapitalize(s: string)
    ensures SlashCount(CapitalizeAfterSlash(s)) == SlashCount(s)
  {
    SlashCountPointwise(CapitalizeAfterSlash(s), s);
  }

  lemma {:induction false} SlashCountPointwise(a: string, b: string)
    requires |a| == |b|
    requires forall i :: 0 <= i < |a| ==> (a[i] == '/' <==> b[i] == '/')
    ensures SlashCount(a) == SlashCount(b)
    decreases |a|
  {
    if |a| > 0 {
      SlashCountPointwise(a[1..], b[1..]);
    }
  }

  /** Collapsing is idempotent: a route never ends in `/index` again. */
  lemma RouteIdempotent(p: string)
    ensures RouteOf(RouteOf(p)) == RouteOf(p)
  {
    var r := RouteOf(p);
    if EndsWith(p, "/index") {
      assert r[|r| - 1] == '/';
      EndsWithLastChar(r, "/index");
    }
  }

  lemma EndsWithLastChar(s: string, suffix: string)
    requires |suffix| > 0
    ensures EndsWith(s, suffix) ==> |s| > 0 && s[|s| - 1] == suffix[|suffix| - 1]
  {
    if EndsWith(s, suffix) {
      assert s[|s| - |suffix|..][|suffix| - 1] == s[|s| - 1];
    }
  }

  /** The first pass works segment by segment: a prefix that does not end
      in `/` cannot start a match that reaches into what follows. */
  lemma {:induction false} UpperAfterSlashAppend(a: string, b: string)
    requires |a| > 0 && a[|a| - 1] != '/'
    ensures UpperAfterSlash(a + b) == UpperAfterSlash(a) + UpperAfterSlash(b)
    decreases |a|
  {
    if |a| >= 2 && a[0] == '/' && IsLower(a[1]) {
      assert (a + b)[2..] == a[2..] + b;
      if |a| == 2 {
        assert a[2..] + b == b;
      } else {
        UpperAfterSlashAppend(a[2..], b);
      }
    } else {
      assert (a + b)[1..] == a[1..] + b;
      if |a| == 1 {
        assert a[1..] + b == b;
      } else {
        UpperAfterSlashAppend(a[1..], b);
      }
    }
  }

  /** Class names compose segment by segment. */
  lemma ClassNameAppend(a: string, b: string)
    requires |a| > 0 && a[|a| - 1] != '/'
    ensures ClassNameOf(a + b) == ClassNameOf(a) + ClassNameOf(b)
  {
    UpperAfterSlashAppend(a, b);
    StripSlashesAppend(UpperAfterSlash(a), UpperAfterSlash(b));
  }

  /** A single segment `/w` contributes `w` with its first letter
      upper-cased. */
  lemma SegmentClassName(w: string)
    requires |w| > 0 && '/' !in w
    ensures ClassNameOf("/" + w) == Capitalize(w)
  {
    var p := "/" + w;
    if IsLower(w[0]) {
      assert p[2..] == w[1..];
      NoSlashFirstPass(w[1..]);
    } else {
      assert p[1..] == w;
      NoSlashFirstPass(w);
      assert w == [w[0]] + w[1..];
    }
    NoSlashUnchanged(Capitalize(w));
  }

  /** A string without slashes passes the second pass unchanged. */
  lemma {:induction false} NoSlashUnchanged(s: string)
    requires '/' !in s
    ensures StripSlashes(s) == s
    decreases |s|
  {
    if |s| > 0 {
      assert s == [s[0]] + s[1..];
      NoSlashUnchanged(s[1..]);
    }
  }

  /** Without slashes the first pass changes nothing. */
  lemma {:induction false} NoSlashFirstPass(s: string)
    requires '/' !in s
    ensures UpperAfterSlash(s) == s
    decreases |s|
  {
    if |s| > 0 {
      assert s == [s[0]] + s[1..];
      NoSlashFirstPass(s[1..]);
    }
  }

  /** A two-level controller path `/a/b` must export `a` and `b`
      capitalised and run together. */
  lemma TwoSegmentClassName(a: string, b: string)
    requires |a| > 0 && '/' !in a
    requires |b| > 0 && '/' !in b
    ensures ClassNameOf("/" + a + "/" + b) == Capitalize(a) + Capitalize(b)
  {
    ClassNameAppend("/" + a, "/" + b);
    assert "/" + a + "/" + b == ("/" + a) + ("/" + b);
    SegmentClassName(a);
    SegmentClassName(b);
  }

  /** Only a final segment spelled exactly `index` collapses; any other
      last segment (`myindex`, `indexes`, ...) leaves the route alone. */
  lemma LastSegmentRoute(prefix: string, b: string)
    requires '/' !in b
    ensures RouteOf(prefix + "/" + b) == if b == "index" then prefix + "/" else prefix + "/" + b
  {
    var p := prefix + "/" + b;
    if b == "index" {
      assert p[|p| - 6..] == "/index";
      assert p[..|p| - 6] == prefix;
    } else if |b| >= 6 {
      assert p[|p| - 6..][0] == b[|b| - 6];
    } else if |b| == 5 {
      assert p[|p| - 6..] == "/" + b;
      assert ("/" + b)[1..] == b && "/index"[1..] == "index";
    } else {
      assert |p| >= 6 ==> p[|p| - 6..][5 - |b|] == '/';
    }
  }

  /** Worked examples of class names: `/user/profile` must export
      `UserProfile`, and `/user/index` must export `UserIndex`, because the
      name is derived before the trailing `index` collapses. The segments
      are parameters so that the verifier reasons about the two segment
      strings rather than unfolding each whole literal path. */
  lemma ExampleClassNames(user: string, profile: string, index: string)
    requires user == "user" && profile == "profile" && index == "index"
    ensures ClassNameOf("/" + user + "/" + profile) == "UserProfile"
    ensures ClassNameOf("/" + user + "/" + index) == "UserIndex"
  {
    assert Capitalize(user) == "User" && Capitalize(profile) == "Profile" && Capitalize(index) == "Index";
    TwoSegmentClassName(user, profile);
    TwoSegmentClassName(user, index);
  }

  /** Worked examples of routes: `/user/profile` is routed as it is, and
      `/user/index` at `/user/`. */
  lemma ExampleRoutes()
    ensures RouteOf("/user/profile") == "/user/profile"
    ensures RouteOf("/user/index") == "/user/"
  {
    var user, profile, index := "user", "profile", "index";
    assert "/" + user + "/" + profile == "/user/profile";
    assert "/" + user + "/" + index == "/user/index";
    assert "/" + user + "/" == "/user/";
    LastSegmentRoute("/" + user, profile);
    LastSegmentRoute("/" + user, index);
  }

  /** An `index` segment that is not the last one leaves the route alone. */
  lemma InnerIndexUntouched()
    ensures RouteOf("/index/a") == "/index/a"
  {
    assert "/index/a"[2..] != "/index";
  }
}
