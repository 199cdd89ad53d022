/** The user and subscription tables (backend/users/models.py): field
    validators and uniqueness constraints as predicates over the tables, and
    the text rendering of a subscription. */
module Users {

  type UserId = nat

  datatype User = User(username: string, email: string)

  /** A character of the class `[а-яА-Я ]`: the Cyrillic letters U+0410..U+042F
      and U+0430..U+044F, and the space (so neither Ё nor ё). */
  predicate IsUsernameChar(c: char)
  {
    ('а' <= c <= 'я') || ('А' <= c <= 'Я') || c == ' '
  }

  /** A whole-string match of `[а-яА-Я ]+`: what the username validator is meant to accept. */
  predicate ValidUsername(s: string)
    ensures ValidUsername(s) ==> '\n' !in s
  {
    |s| > 0 && forall i :: 0 <= i < |s| ==> IsUsernameChar(s[i])
  }

  /** What the validator `^[а-яА-Я ]+$` accepts as written: Django runs it with
      `re.search`, and Python's `$` also matches just before a final newline. */
  predicate UsernameAsWritten(s: string)
    ensures UsernameAsWritten(s) && '\n' !in s ==> ValidUsername(s)
  {
    ValidUsername(s) || (|s| > 0 && s[|s| - 1] == '\n' && ValidUsername(s[..|s| - 1]))
  }

  /** The pattern as written accepts a username that ends in a newline. */
  lemma UsernameTrailingNewline()
    ensures UsernameAsWritten("Иван\n") && !ValidUsername("Иван\n")
  {
    var s := "Иван\n";
    assert s[..|s| - 1] == "Иван";
    assert !IsUsernameChar(s[4]);
  }

  /** The pattern as written and the intended full match differ exactly on
      strings that end in a newline. */
  lemma {:induction false} UsernameAsWrittenGap(s: string)
    ensures ValidUsername(s) ==> UsernameAsWritten(s) && '\n' !in s
    ensures UsernameAsWritten(s) && !ValidUsername(s) ==> |s| > 1 && s[|s| - 1] == '\n'
    ensures |s| > 0 && s[|s| - 1] != '\n' ==> (UsernameAsWritten(s) <==> ValidUsername(s))
  {
    if UsernameAsWritten(s) && !ValidUsername(s) {
      assert ValidUsername(s[..|s| - 1]);
      assert |s[..|s| - 1]| > 0;
    }
    if ValidUsername(s) {
      forall i | 0 <= i < |s| ensures s[i] != '\n' {
        assert IsUsernameChar(s[i]);
      }
    }
  }

  /** `username` and `email` are each unique across users. */
  ghost predicate UsersValid(users: map<UserId, User>)
  {
    && (forall u :: u in users ==> ValidUsername(users[u].username))
    && (forall u, v :: u in users && v in users && u != v ==>
          users[u].username != users[v].username && users[u].email != users[v].email)
  }

  /** Both ends of every (user, author) pair are users; pairs are unique
      because the table is a set. Nothing here forbids a pair (u, u). */
  ghost predicate SubscriptionsValid(subscriptions: set<(UserId, UserId)>, users: set<UserId>)
  {
    forall p :: p in subscriptions ==> p.0 in users && p.1 in users
  }

  const SubscribePrefix: string := "Пользователь "
  const SubscribeMiddle: string := " подписался на "

  /** `Subscribe.__str__`: "Пользователь {user} подписался на {author}", where
      a user renders as its username. */
  function SubscribeStr(user: User, author: User): (s: string)
    ensures |SubscribePrefix| <= |s| && s[..|SubscribePrefix|] == SubscribePrefix
    ensures |author.username| <= |s| && s[|s| - |author.username|..] == author.username
  {
    SubscribePrefix + user.username + SubscribeMiddle + author.username
  }

  /** The rendering does not identify the pair: the middle phrase is itself
      made of Cyrillic letters and spaces, so it can sit inside a valid
      username, and two different (user, author) pairs of valid usernames
      render alike. */
  lemma SubscribeStrAmbiguous()
    ensures var u1, a1 := User("Иван", ""), User("Петр" + SubscribeMiddle + "Анна", "");
            var u2, a2 := User("Иван" + SubscribeMiddle + "Петр", ""), User("Анна", "");
      && ValidUsername(u1.username) && ValidUsername(a1.username)
      && ValidUsername(u2.username) && ValidUsername(a2.username)
      && (u1, a1) != (u2, a2)
      && SubscribeStr(u1, a1) == SubscribeStr(u2, a2)
  {
    var m := SubscribeMiddle;
    assert ValidUsername(m);
    ValidUsernameConcat("Иван", m);
    ValidUsernameConcat("Иван" + m, "Петр");
    ValidUsernameConcat("Петр", m);
    ValidUsernameConcat("Петр" + m, "Анна");
    assert |"Иван" + m + "Петр"| != |"Иван"|;
  }

  lemma ValidUsernameConcat(a: string, b: string)
    requires ValidUsername(a) && ValidUsername(b)
    ensures ValidUsername(a + b)
  {
    forall i | 0 <= i < |a + b| ensures IsUsernameChar((a + b)[i]) {
      if i < |a| {
        assert (a + b)[i] == a[i];
      } else {
        assert (a + b)[i] == b[i - |a|];
      }
    }
  }

  /** With the follower fixed, the rendering names the author, and with
      the author fixed, it names the follower. */
  lemma SubscribeStrCancels(u1: User, a1: User, u2: User, a2: User)
    requires SubscribeStr(u1, a1) == SubscribeStr(u2, a2)
    ensures u1.username == u2.username ==> a1.username == a2.username
    ensures a1.username == a2.username ==> u1.username == u2.username
  {
    var s := SubscribeStr(u1, a1);
    var p, m := |SubscribePrefix|, |SubscribeMiddle|;
    if u1.username == u2.username {
      assert a1.username == s[p + |u1.username| + m..] == a2.username;
    }
    if a1.username == a2.username {
      var n := |s| - |a1.username| - m;
      assert u1.username == s[p..n] == u2.username;
    }
  }
}
