/**
 * Worked inputs for the hostname extractor.  Each `...Span` lemma runs the
 * matcher on one literal input group by group, with RunEndIs fixing where
 * each run of characters ends; the lemma after it states the extracted
 * hostname.  The `www.` and bare-prefix inputs go through the general
 * lemmas of module App (WwwStripped, BareSchemeKept, BareWwwKept) instead.
 */
module HostnameExamples {
  import opened App

  lemma FullUrlText()
    ensures TextOf("https://www.example.com/login", Some(Span(12, 23))) == Some("example.com")
  {
    assert "https://www.example.com/login"[12..23] == "example.com";
  }

  lemma UserinfoTexts()
    ensures TextOf("user@site.com", Some(Span(5, 13))) == Some("site.com")
    ensures TextOf("a:b@site.com", Some(Span(4, 12))) == Some("site.com")
  {
    assert "user@site.com"[5..13] == "site.com";
    assert "a:b@site.com"[4..12] == "site.com";
  }

  lemma FullUrlUserinfoRun()
    ensures RunEnd("https://www.example.com/login", 8, Userinfo) == 23
  {
    RunEndIs("https://www.example.com/login", 8, 23, Userinfo);
  }

  lemma FullUrlHostRun()
    ensures RunEnd("https://www.example.com/login", 12, Host) == 23
  {
    RunEndIs("https://www.example.com/login", 12, 23, Host);
  }

  lemma FullUrlScheme()
    ensures SchemeEnd("https://www.example.com/login") == Some(8)
  {
  }

  lemma FullUrlWww()
    ensures WwwEnd("https://www.example.com/login", 8) == Some(12)
  {
    assert "https://www.example.com/login"[8..12] == "www.";
  }

  lemma FullUrlGroups()
    ensures SchemeEnd("https://www.example.com/login") == Some(8)
    ensures UserinfoEnd("https://www.example.com/login", 8) == None
    ensures WwwEnd("https://www.example.com/login", 8) == Some(12)
    ensures Capture("https://www.example.com/login", 12) == Some(Span(12, 23))
  {
    FullUrlScheme();
    FullUrlWww();
    FullUrlUserinfoRun();
    FullUrlHostRun();
  }

  lemma FullUrlSpan()
    ensures MatchSpan("https://www.example.com/login") == Some(Span(12, 23))
  {
    var s := "https://www.example.com/login";
    FullUrlGroups();
    assert FromWww(s, 8) == Some(Span(12, 23));
    assert FromUserinfo(s, 8) == Some(Span(12, 23));
  }

  /** A full URL loses its scheme, its `www.` and everything from the first slash on. */
  lemma FullUrl()
    ensures Hostname("https://www.example.com/login") == Some("example.com")
  {
    FullUrlSpan();
    FullUrlText();
  }

  lemma UserinfoGroups()
    ensures UserinfoEnd("user@site.com", 0) == Some(5)
    ensures UserinfoEnd("a:b@site.com", 0) == Some(4)
    ensures WwwEnd("user@site.com", 5) == None
    ensures WwwEnd("a:b@site.com", 4) == None
  {
    RunEndIs("user@site.com", 0, 4, Userinfo);
    RunEndIs("a:b@site.com", 0, 3, Userinfo);
    assert "user@site.com"[5..9][0] == 's';
    assert "a:b@site.com"[4..8][0] == 's';
  }

  lemma UserinfoCaptures()
    ensures Capture("user@site.com", 5) == Some(Span(5, 13))
    ensures Capture("a:b@site.com", 4) == Some(Span(4, 12))
  {
  }

  lemma UserinfoSpans()
    ensures MatchSpan("user@site.com") == Some(Span(5, 13))
    ensures MatchSpan("a:b@site.com") == Some(Span(4, 12))
  {
    NoSchemeUnlessH("user@site.com");
    NoSchemeUnlessH("a:b@site.com");
    UserinfoGroups();
    UserinfoCaptures();
    assert FromWww("user@site.com", 5) == Some(Span(5, 13));
    assert FromWww("a:b@site.com", 4) == Some(Span(4, 12));
  }

  /** `user@` and `a:b@` are userinfo: a colon before the `@` belongs to it. */
  lemma UserinfoInputs()
    ensures Hostname("user@site.com") == Some("site.com")
    ensures Hostname("a:b@site.com") == Some("site.com")
  {
    UserinfoSpans();
    UserinfoTexts();
  }

  lemma WwwWwwX()
    ensures Hostname("www.www.x") == Some("www.x")
  {
    var t := "www.x";
    assert forall k :: 0 <= k < |t| ==> t[k] != '@' by {
      assert t == ['w', 'w', 'w', '.', 'x'];
    }
    RunEndIs(t, 0, 5, Host);
    WwwStripped(t);
    assert "www." + t == "www.www.x";
    assert t[..5] == "www.x";
  }

  lemma WwwX()
    ensures Hostname("www.x") == Some("x")
  {
    RunEndIs("x", 0, 1, Host);
    WwwStripped("x");
    assert "www." + "x" == "www.x";
    assert "x"[..1] == "x";
  }

  /** Only one `www.` goes per application, so applying the extractor twice can change the result again. */
  lemma WwwNotIdempotent()
    ensures Hostname("www.www.x") == Some("www.x")
    ensures Hostname("www.x") == Some("x")
  {
    WwwWwwX();
    WwwX();
  }

  lemma DoubleAtSpan()
    ensures MatchSpan("a@b@c") == Some(Span(2, 5))
  {
    NoSchemeUnlessH("a@b@c");
    RunEndIs("a@b@c", 0, 1, Userinfo);
    RunEndIs("a@b@c", 2, 5, Host);
  }

  lemma BAtCSpan()
    ensures MatchSpan("b@c") == Some(Span(2, 3))
  {
    NoSchemeUnlessH("b@c");
    RunEndIs("b@c", 0, 1, Userinfo);
    RunEndIs("b@c", 2, 3, Host);
  }

  /** Only one `userinfo@` goes per application. */
  lemma UserinfoNotIdempotent()
    ensures Hostname("a@b@c") == Some("b@c")
    ensures Hostname("b@c") == Some("c")
  {
    DoubleAtSpan();
    assert "a@b@c"[2..5] == "b@c";
    BAtCSpan();
    assert "b@c"[2..3] == "c";
  }

  lemma SchemeTwiceGroups()
    ensures SchemeEnd("http://https://x") == Some(7)
    ensures UserinfoEnd("http://https://x", 7) == None && WwwEnd("http://https://x", 7) == None
    ensures Capture("http://https://x", 7) == Some(Span(7, 12))
  {
    var s := "http://https://x";
    assert s[..8][4] == ':';
    assert s[..7] == "http://";
    RunEndIs(s, 7, 13, Userinfo);
    RunEndIs(s, 7, 12, Host);
    assert s[7..11][0] == 'h';
  }

  lemma SchemeTwiceSpan()
    ensures MatchSpan("http://https://x") == Some(Span(7, 12))
  {
    SchemeTwiceGroups();
    assert FromUserinfo("http://https://x", 7) == Some(Span(7, 12));
  }

  lemma PlainX()
    ensures Hostname("x") == Some("x")
  {
    NoSchemeUnlessH("x");
    RunEndIs("x", 0, 1, Userinfo);
    RunEndIs("x", 0, 1, Host);
    assert "x"[0..1] == "x";
  }

  /**
   * Only one scheme goes per application: behind `http://` a second scheme
   * is not a scheme, and its colon ends the capture, although the inner
   * URL on its own gives the host behind it.
   */
  lemma OneSchemePerInput()
    ensures Hostname("http://https://x") == Some("https")
    ensures Hostname("https://x") == Some("x")
  {
    SchemeTwice();
    SchemeX();
  }

  lemma SchemeTwice()
    ensures Hostname("http://https://x") == Some("https")
  {
    SchemeTwiceSpan();
    SchemeTwiceText();
  }

  lemma SchemeTwiceText()
    ensures TextOf("http://https://x", Some(Span(7, 12))) == Some("https")
  {
    assert "http://https://x"[7..12] == "https";
  }

  lemma SchemeX()
    ensures Hostname("https://x") == Some("x")
  {
    NoSchemeUnlessH("x");
    SchemeStripped("https://", "x");
    assert "https://" + "x" == "https://x";
    PlainX();
  }

  /** A prefix with nothing capturable behind it is kept rather than stripped. */
  lemma BarePrefixes()
    ensures Hostname("https://") == Some("https")
    ensures Hostname("www.") == Some("www.")
  {
    BareSchemeKept("https://", "");
    assert "https://" + "" == "https://";
    assert "https://"[..5] == "https";
    BareWwwKept("");
    assert "www." + "" == "www.";
  }

  lemma ColonUserinfoGroups()
    ensures SchemeEnd("https://:a@b") == Some(8)
    ensures UserinfoEnd("https://:a@b", 8) == Some(11) && WwwEnd("https://:a@b", 11) == None
    ensures Capture("https://:a@b", 11) == Some(Span(11, 12))
  {
    var s := "https://:a@b";
    assert s[..8] == "https://";
    RunEndIs(s, 8, 10, Userinfo);
    RunEndIs(s, 11, 12, Host);
  }

  lemma ColonUserinfoSpan()
    ensures MatchSpan("https://:a@b") == Some(Span(11, 12))
  {
    ColonUserinfoGroups();
    assert FromWww("https://:a@b", 11) == Some(Span(11, 12));
    assert FromUserinfo("https://:a@b", 8) == Some(Span(11, 12));
  }

  lemma ColonUserinfoText()
    ensures TextOf("https://:a@b", Some(Span(11, 12))) == Some("b")
  {
    assert "https://:a@b"[11..12] == "b";
  }

  /**
   * A character the capture refuses does not keep the scheme when it can
   * start a userinfo group: here `:a@` is userinfo and the host behind it wins.
   */
  lemma ColonBeforeUserinfo()
    ensures Hostname("https://:a@b") == Some("b")
  {
    ColonUserinfoSpan();
    ColonUserinfoText();
  }

  lemma UpperCaseSpan()
    ensures MatchSpan("HTTPS://x") == Some(Span(0, 5))
  {
    var s := "HTTPS://x";
    NoSchemeUnlessH(s);
    assert RunEnd(s, 0, Userinfo) == 6;
    assert UserinfoEnd(s, 0) == None;
    assert WwwEnd(s, 0) == None by { assert s[0..4][0] == 'H'; }
    assert RunEnd(s, 0, Host) == 5;
    assert Capture(s, 0) == Some(Span(0, 5));
  }

  /** Matching is case-sensitive: an upper-case scheme is not a scheme, and its colon ends the capture. */
  lemma UpperCaseScheme()
    ensures Hostname("HTTPS://x") == Some("HTTPS")
  {
    UpperCaseSpan();
    assert "HTTPS://x"[0..5] == "HTTPS";
  }

  lemma PortUserinfoRun()
    ensures RunEnd("example.com:8080/x", 0, Userinfo) == 16
  {
    RunEndIs("example.com:8080/x", 0, 16, Userinfo);
  }

  lemma PortHostRun()
    ensures RunEnd("example.com:8080/x", 0, Host) == 11
  {
    RunEndIs("example.com:8080/x", 0, 11, Host);
  }

  lemma PortSpan()
    ensures MatchSpan("example.com:8080/x") == Some(Span(0, 11))
  {
    var s := "example.com:8080/x";
    NoSchemeUnlessH(s);
    PortUserinfoRun();
    PortHostRun();
    assert WwwEnd(s, 0) == None by { assert s[0..4][0] == 'e'; }
  }

  lemma PlainHostRuns()
    ensures RunEnd("example.com", 0, Userinfo) == 11
    ensures RunEnd("example.com", 0, Host) == 11
  {
    RunEndIs("example.com", 0, 11, Userinfo);
    RunEndIs("example.com", 0, 11, Host);
  }

  lemma PlainHostSpan()
    ensures MatchSpan("example.com") == Some(Span(0, 11))
  {
    var s := "example.com";
    NoSchemeUnlessH(s);
    PlainHostRuns();
    assert WwwEnd(s, 0) == None by { assert s[0..4][0] == 'e'; }
  }

  /** A bare host is kept as it is. */
  lemma PlainHost()
    ensures Hostname("example.com") == Some("example.com")
  {
    PlainHostSpan();
    assert "example.com"[0..11] == "example.com";
  }

  /** A port and a path are dropped. */
  lemma PortDropped()
    ensures Hostname("example.com:8080/x") == Some("example.com")
  {
    PortSpan();
    assert "example.com:8080/x"[0..11] == "example.com";
  }

  /** Inputs on which every choice of prefixes leaves nothing to capture. */
  lemma NoHostname()
    ensures Hostname("") == None
    ensures Hostname("/path") == None
    ensures Hostname(":80") == None
  {
  }
}
