/** The identity resolver, get_twitch_login_from_bf_username
    (app.py:161-200): a fixed table from Battlefield player names to Twitch
    logins, consulted with the name as given and then with the name
    lower-cased. Every name in the table holds an upper-case letter, so the
    lower-cased second lookup never finds anything: the resolver is an exact,
    case-sensitive match. */
module Resolver {
  import opened Py

  /** The known_streamers table, entry for entry. */
  const KnownStreamers: map<string, string> := map[
    "Aculite" := "aculite",
    "Stodeh" := "stodeh",
    "TheTacticalBrit" := "thetacticalbrit",
    "xQc" := "xqc",
    "Shroud" := "shroud",
    "DrDisRespect" := "drdisrespect",
    "Ninja" := "ninja",
    "Swagg" := "swagg",
    "Nickmercs" := "nickmercs",
    "TimTheTatman" := "timthetatman",
    "Valkyrae" := "valkyrae",
    "Summit1g" := "summit1g",
    "LIRIK" := "lirik",
    "Sodapoppin" := "sodapoppin",
    "Asmongold" := "zackrawrr",
    "Jacksepticeye" := "jacksepticeye",
    "PewDiePie" := "pewdiepie",
    "CoryxKenshin" := "coryxkenshin",
    "MrBeastGaming" := "mrbeastgaming",
    "SypherPK" := "sypherpk",
    "DrLupo" := "drlupo",
    "Myth" := "myth",
    "Tfue" := "tfue",
    "Clix" := "clix",
    "Bugha" := "bugha",
    "Loserfruit" := "loserfruit",
    "Pokimane" := "pokimanelol",
    "Amouranth" := "amouranth",
    "IShowSpeed" := "ishowspeed",
    "KaiCenat" := "kaicenat",
    "Westie" := "westie",
    "Jackfrags" := "jackfrags",
    "LevelCap" := "levelcapgaming",
    "TheActMan" := "theactman",
    "Youtubers like Aculite" := "aculite"
  ]

  /** table.get(key, default). */
  function Get(table: map<string, string>, key: string, default: Option<string>): (r: Option<string>)
    ensures key in table ==> r == Some(table[key])
    ensures key !in table ==> r == default
  {
    if key in table then Some(table[key]) else default
  }

  /** known.get(name, known.get(name.lower(), None)) over any table. */
  function Lookup(table: map<string, string>, name: string): Option<string> {
    Get(table, name, Get(table, Lower(name), None))
  }

  /** The resolver itself. */
  function TwitchLogin(name: string): Option<string> {
    Lookup(KnownStreamers, name)
  }

  /** The name holds an ASCII upper-case letter. */
  predicate HasUpper(s: string) {
    s != [] && (IsUpper(s[0]) || HasUpper(s[1..]))
  }

  /** Where HasUpper finds its letter. */
  lemma {:induction false} HasUpperAt(s: string)
    ensures HasUpper(s) <==> exists i :: 0 <= i < |s| && IsUpper(s[i])
  {
    if s != [] {
      HasUpperAt(s[1..]);
      if HasUpper(s[1..]) {
        var i :| 0 <= i < |s[1..]| && IsUpper(s[1..][i]);
        assert IsUpper(s[i + 1]);
      }
      if exists i :: 0 <= i < |s| && IsUpper(s[i]) {
        var i :| 0 <= i < |s| && IsUpper(s[i]);
        if i > 0 {
          assert IsUpper(s[1..][i - 1]);
        }
      }
    }
  }

  /** The two lookups, in the order the code makes them. */
  lemma LookupOrder(table: map<string, string>, name: string)
    ensures name in table ==> Lookup(table, name) == Some(table[name])
    ensures name !in table && Lower(name) in table ==> Lookup(table, name) == Some(table[Lower(name)])
    ensures name !in table && Lower(name) !in table ==> Lookup(table, name) == None
    ensures Lookup(table, name).Some? <==> name in table || Lower(name) in table
  {
  }

  /** A lower-cased name holds no upper-case letter. */
  lemma LowerHasNoUpper(s: string)
    ensures !HasUpper(Lower(s))
  {
    HasUpperAt(Lower(s));
  }

  /** Every key of the table but "xQc" starts with an upper-case letter. */
  lemma KeysStartUpper()
    ensures forall k :: k in KnownStreamers ==> k == "xQc" || (k != [] && IsUpper(k[0]))
  {
  }

  /** No key starts with 'R', and the one key starting with 'V' is
      "Valkyrae", so these names are not keys. */
  lemma NotAKey(name: string)
    requires |name| >= 2 && (name[0] == 'R' || (name[0] == 'V' && name[1] != 'a'))
    ensures name !in KnownStreamers
  {
    KeyInitials();
  }

  /** The initials of the keys. */
  lemma KeyInitials()
    ensures forall k :: k in KnownStreamers ==> k != [] && k[0] != 'R' && (k[0] == 'V' ==> k == "Valkyrae")
  {
  }

  /** Every key of the table holds an upper-case letter. */
  lemma EveryKeyHasUpper()
    ensures forall k :: k in KnownStreamers ==> HasUpper(k)
  {
    KeysStartUpper();
    assert HasUpper("xQc"[1..]);
  }

  /** The lower-cased lookup never hits, so a name resolves exactly when it
      is a key of the table as written, and then to that key's login. */
  lemma ResolveIsExact(name: string)
    ensures TwitchLogin(name).Some? <==> name in KnownStreamers
    ensures name in KnownStreamers ==> TwitchLogin(name) == Some(KnownStreamers[name])
  {
    LowerHasNoUpper(name);
    EveryKeyHasUpper();
  }

  /** Case matters: "XQC" and "xqc" do not resolve though "xQc" does. */
  lemma XqcIsCaseSensitive()
    ensures TwitchLogin("xQc") == Some("xqc")
    ensures TwitchLogin("XQC") == None
    ensures TwitchLogin("xqc") == None
  {
    XqcMisses("XQC");
    XqcMisses("xqc");
  }

  /** "xQc" is the only three-letter key. */
  lemma XqcMisses(name: string)
    requires |name| == 3 && name != "xQc"
    ensures TwitchLogin(name) == None
  {
    ResolveIsExact(name);
    assert forall k :: k in KnownStreamers && |k| == 3 ==> k == "xQc";
  }

  /** Every login the resolver gives is non-empty, so the caller's
      truthiness test passes for every resolved name. */
  lemma ResolvedLoginsNonEmpty(name: string)
    ensures TwitchLogin(name).Some? ==> TwitchLogin(name).value != []
  {
    ResolveIsExact(name);
  }

  /** The fallback entry and the plain name lead to the same login. */
  lemma AculiteAlias()
    ensures TwitchLogin("Youtubers like Aculite") == TwitchLogin("Aculite") == Some("aculite")
  {
  }
}
