/** Shared vocabulary of the game-server bot model: optional values, the three
    persistent message slots, and the configuration constants the core uses. */
module BotTypes {

  datatype Option<+T> = None | Some(value: T)

  /** The three persistent messages the bot keeps in its control channel. */
  datatype Slot = Panel | Status | History

  /** One value per slot: the bot's `current_panel_message_id`, `current_status_message_id`
      and `current_history_message_id` attributes. */
  datatype SlotIds = SlotIds(panel: Option<int>, status: Option<int>, history: Option<int>) {

    function Get(s: Slot): Option<int> {
      match s
      case Panel => panel
      case Status => status
      case History => history
    }

    /** `setattr(bot, <slot's attribute>, v)`: that slot changes, the others keep their ids. */
    function Set(s: Slot, v: Option<int>): (r: SlotIds)
      ensures r.Get(s) == v
      ensures forall t :: t != s ==> r.Get(t) == Get(t)
    {
      match s
      case Panel => this.(panel := v)
      case Status => this.(status := v)
      case History => this.(history := v)
    }
  }

  /** A second `setattr` on the same slot overrides the first. */
  lemma SetTwice(ids: SlotIds, s: Slot, v: Option<int>, w: Option<int>)
    ensures ids.Set(s, v).Set(s, w) == ids.Set(s, w)
  {
  }

  const NoIds: SlotIds := SlotIds(None, None, None)

  /** Capacity of the recent-command history (a deque with maxlen 5). */
  const MaxCommandHistory: nat := 5

  /** Hours between a confirmed start and the automated shutdown. */
  const ShutdownDelayHours: nat := 12

  const SecondsPerHour: nat := 3600
  const SecondsPerMinute: nat := 60

  /** Messages younger than this many whole days go to the bulk-delete batch. */
  const BulkDeleteWindowDays: int := 14

  /** Python truthiness of an optional message id: `None` and `0` both read as "no id". */
  predicate IsSet(id: Option<int>) {
    id.Some? && id.value != 0
  }
}
