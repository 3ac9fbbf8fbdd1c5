/** The sidebar's two handlers over the application's state: the chat list
    and the id of the active chat. */
module Sidebar {
  import opened ChatStore
  import Decimal

  /** The state the application owns and hands to the sidebar. */
  datatype Store = Store(chats: seq<Chat>, activeChat: Option<string>)

  /** What one click on "new chat" supplies from the clock: the id (the
      current time rendered as text) and the creation time. */
  datatype Click = Click(id: string, createdAt: int)

  /** Title of a chat created when the list holds `count` chats. */
  function NewChatTitle(count: nat): string
  {
    "New Chat " + Decimal.NatToString(count + 1)
  }

  /** The chat a click creates when the list holds `count` chats: empty,
      with the click's id and time and the counting title. */
  function NewChat(click: Click, count: nat): Chat
  {
    Chat(click.id, NewChatTitle(count), [], click.createdAt)
  }

  /** Prepends a fresh, empty chat whose title counts the chats, and makes it
      the active one. */
  function CreateNewChat(s: Store, click: Click): (r: Store)
    ensures |r.chats| == |s.chats| + 1
    ensures r.chats[1..] == s.chats
    ensures r.chats[0].id == click.id && r.chats[0].messages == []
    ensures r.chats[0].title == NewChatTitle(|s.chats|)
    ensures r.chats[0].createdAt == click.createdAt
    ensures r.activeChat == Some(r.chats[0].id)
  {
    var newChat := NewChat(click, |s.chats|);
    Store([newChat] + s.chats, Some(newChat.id))
  }

  /** Selecting a listed chat makes its id the active one and leaves the list
      alone. */
  function SelectChat(s: Store, id: string): (r: Store)
    ensures r.chats == s.chats
    ensures r.activeChat == Some(id)
  {
    s.(activeChat := Some(id))
  }

  /** The store after one click per element of `clicks`, in order. */
  function CreateMany(s: Store, clicks: seq<Click>): (r: Store)
    ensures |r.chats| == |s.chats| + |clicks|
    decreases |clicks|
  {
    if clicks == [] then s
    else CreateMany(CreateNewChat(s, clicks[0]), clicks[1..])
  }

  /** After a run of clicks the old chats sit unchanged at the end. */
  lemma {:induction false} CreateManyKeepsOld(s: Store, clicks: seq<Click>)
    ensures CreateMany(s, clicks).chats[|clicks|..] == s.chats
    decreases |clicks|
  {
    if clicks != [] {
      var s1 := CreateNewChat(s, clicks[0]);
      var rest := clicks[1..];
      var chats := CreateMany(s1, rest).chats;
      CreateManyKeepsOld(s1, rest);
      assert chats[|rest|..] == s1.chats;
      assert chats[|clicks|..] == chats[|rest|..][1..];
    }
  }

  /** The chat the `j`-th click of a run created sits `j` places from the
      end of the new chats: empty, and titled by the count at its
      creation. */
  lemma {:induction false} CreateManyAt(s: Store, clicks: seq<Click>, j: nat)
    requires j < |clicks|
    ensures CreateMany(s, clicks).chats[|clicks| - 1 - j] == NewChat(clicks[j], |s.chats| + j)
    decreases |clicks|
  {
    var s1 := CreateNewChat(s, clicks[0]);
    var rest := clicks[1..];
    var chats := CreateMany(s1, rest).chats;
    assert CreateMany(s, clicks).chats == chats;
    if j == 0 {
      CreateManyKeepsOld(s1, rest);
      assert chats[|rest|..][0] == s1.chats[0];
    } else {
      CreateManyAt(s1, rest, j - 1);
      assert rest[j - 1] == clicks[j];
    }
  }

  /** After a run of at least one click, the chat of the last click is
      active. */
  lemma {:induction false} CreateManyActive(s: Store, clicks: seq<Click>)
    requires clicks != []
    ensures CreateMany(s, clicks).activeChat == Some(clicks[|clicks| - 1].id)
    decreases |clicks|
  {
    var s1 := CreateNewChat(s, clicks[0]);
    var rest := clicks[1..];
    if rest != [] {
      CreateManyActive(s1, rest);
      assert rest[|rest| - 1] == clicks[|clicks| - 1];
    }
  }

  /** After `n` clicks the list has grown by `n`, the old chats sit unchanged
      at the end, the newest chat comes first, each new chat is empty and
      titled by the count at its creation, and the last one created is
      active. */
  lemma {:induction false} CreateManyShape(s: Store, clicks: seq<Click>)
    ensures var r := CreateMany(s, clicks);
      r.chats[|clicks|..] == s.chats &&
      (forall j :: 0 <= j < |clicks| ==> r.chats[|clicks| - 1 - j] == NewChat(clicks[j], |s.chats| + j)) &&
      (clicks != [] ==> r.activeChat == Some(clicks[|clicks| - 1].id)) &&
      (clicks == [] ==> r == s)
  {
    CreateManyKeepsOld(s, clicks);
    forall j | 0 <= j < |clicks|
      ensures CreateMany(s, clicks).chats[|clicks| - 1 - j] == NewChat(clicks[j], |s.chats| + j)
    {
      CreateManyAt(s, clicks, j);
    }
    if clicks != [] {
      CreateManyActive(s, clicks);
    }
  }

  /** Titles written for different counts differ. */
  lemma NewChatTitleInjective(a: nat, b: nat)
    ensures NewChatTitle(a) == NewChatTitle(b) ==> a == b
  {
    var prefix := "New Chat ";
    if NewChatTitle(a) == NewChatTitle(b) {
      assert (prefix + Decimal.NatToString(a + 1))[|prefix|..] == Decimal.NatToString(a + 1);
      assert (prefix + Decimal.NatToString(b + 1))[|prefix|..] == Decimal.NatToString(b + 1);
      Decimal.NatToStringInjective(a + 1, b + 1);
    }
  }

  /** Chats created one after another get pairwise different titles. */
  lemma {:induction false} CreatedTitlesDistinct(s: Store, clicks: seq<Click>, j: nat, k: nat)
    requires j < k < |clicks|
    ensures CreateMany(s, clicks).chats[j].title != CreateMany(s, clicks).chats[k].title
  {
    CreateManyAt(s, clicks, |clicks| - 1 - j);
    CreateManyAt(s, clicks, |clicks| - 1 - k);
    NewChatTitleInjective(|s.chats| + |clicks| - 1 - j, |s.chats| + |clicks| - 1 - k);
  }
}
