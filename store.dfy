/**
  The persistent documents the controllers read and write (users, conversations,
  messages, engine configurations), held in memory by one `Database` object.
  Message and conversation identifiers are positions in their sequences: both
  collections only grow, and a new document's id is the length of its collection
  before the insert.
*/
module Store {
  import opened Common

  type UserId = nat
  type ConvId = nat
  type MsgId = nat
  type ConfigId = nat

  /** A calendar day, the unit `toDateString` compares. */
  type Day = int

  /** The quota fields of a user document; `dailyMessageCount` defaults to 0, `lastMessageDate` to null. */
  datatype User = User(dailyMessageCount: int, lastMessageDate: Option<Day>)

  /** The schema restricts `sender` to "user" and "bot". */
  datatype Sender = UserSender | BotSender

  datatype Message = Message(conversationId: ConvId, sender: Sender, text: string)

  datatype Conversation = Conversation(owner: UserId, title: string, messages: seq<MsgId>)

  /** An engine configuration; `updatedAt` is the schema's timestamp, as an integer clock value. */
  datatype ModelConfig = ModelConfig(
    id: ConfigId, name: string, key: string, description: Option<string>, active: bool, updatedAt: int)

  /** Configuration ids, names and keys are each unique (the primary key and the two unique indexes). */
  ghost predicate ConfigsWellFormed(configs: seq<ModelConfig>, nextId: ConfigId) {
    && (forall i :: 0 <= i < |configs| ==> configs[i].id < nextId)
    && (forall i, j :: 0 <= i < j < |configs| ==>
          configs[i].id != configs[j].id && configs[i].name != configs[j].name && configs[i].key != configs[j].key)
  }

  /** Every message names an existing conversation, and every conversation lists existing messages. */
  ghost predicate Linked(messages: seq<Message>, conversations: seq<Conversation>) {
    && (forall i :: 0 <= i < |messages| ==> messages[i].conversationId < |conversations|)
    && (forall c, k :: 0 <= c < |conversations| && 0 <= k < |conversations[c].messages| ==>
          conversations[c].messages[k] < |messages|)
  }

  class Database {
    var users: map<UserId, User>
    var conversations: seq<Conversation>
    var messages: seq<Message>
    var configs: seq<ModelConfig>
    var nextConfigId: ConfigId

    /** Every reference between documents points at an existing document. */
    ghost predicate Valid()
      reads this
    {
      && Linked(messages, conversations)
      && ConfigsWellFormed(configs, nextConfigId)
    }

    constructor ()
      ensures Valid()
      ensures users == map[] && conversations == [] && messages == [] && configs == []
    {
      users := map[];
      conversations := [];
      messages := [];
      configs := [];
      nextConfigId := 0;
    }
  }
}
