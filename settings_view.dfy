/**
 * The settings sheet of SettingsView.swift: it adds the URL typed into
 * `webhookURL` to `savedWebhooks` and removes entries by offset, writing the
 * list to the "savedWebhooks" user default after each change and showing a
 * coloured message.
 */
module SettingsView {
  import opened Common
  import WebhookPattern
  import WebhookList

  const ADDED_TEXT: string := "Webhook added successfully!"
  const DUPLICATE_TEXT: string := "Webhook is already in the list."
  const INVALID_TEXT: string := "Invalid Discord Webhook URL. Please enter a valid URL."
  const REMOVED_TEXT: string := "Webhook removed successfully!"

  class SettingsView {
    /** The text field's contents. */
    var webhookURL: string
    /** The saved webhook list the sheet edits. */
    var savedWebhooks: seq<string>
    /** The feedback line and its colour. */
    var message: (string, Color)
    /** The list as last written to the "savedWebhooks" user default. */
    var storedWebhooks: seq<string>

    constructor (webhookURL: string, savedWebhooks: seq<string>, storedWebhooks: seq<string>)
      ensures this.webhookURL == webhookURL && this.savedWebhooks == savedWebhooks
      ensures this.storedWebhooks == storedWebhooks && message == ("", Clear)
    {
      this.webhookURL := webhookURL;
      this.savedWebhooks := savedWebhooks;
      this.storedWebhooks := storedWebhooks;
      message := ("", Clear);
    }

    /**
     * A URL that passes the check and is new is appended, saved, cleared from
     * the field and acknowledged in green; a known one is reported in orange;
     * one that fails the check is reported in red. Only the first case changes
     * the list, the field or the stored copy.
     */
    method ValidateAndSaveWebhook()
      modifies this
      ensures savedWebhooks == WebhookList.Added(old(savedWebhooks), old(webhookURL))
      ensures WebhookList.WellFormed(old(savedWebhooks)) ==> WebhookList.WellFormed(savedWebhooks)
      ensures WebhookPattern.IsValidWebhookURL(old(webhookURL)) && old(webhookURL) !in old(savedWebhooks) ==>
        savedWebhooks == old(savedWebhooks) + [old(webhookURL)] && storedWebhooks == savedWebhooks &&
        webhookURL == "" && message == (ADDED_TEXT, Green)
      ensures WebhookPattern.IsValidWebhookURL(old(webhookURL)) && old(webhookURL) in old(savedWebhooks) ==>
        savedWebhooks == old(savedWebhooks) && storedWebhooks == old(storedWebhooks) &&
        webhookURL == old(webhookURL) && message == (DUPLICATE_TEXT, Orange)
      ensures !WebhookPattern.IsValidWebhookURL(old(webhookURL)) ==>
        savedWebhooks == old(savedWebhooks) && storedWebhooks == old(storedWebhooks) &&
        webhookURL == old(webhookURL) && message == (INVALID_TEXT, Red)
    {
      if WebhookList.WellFormed(savedWebhooks) {
        WebhookList.AddedKeepsWellFormed(savedWebhooks, webhookURL);
      }
      if WebhookPattern.IsValidWebhookURL(webhookURL) {
        if webhookURL !in savedWebhooks {
          savedWebhooks := savedWebhooks + [webhookURL];
          storedWebhooks := savedWebhooks;
          webhookURL := "";
          message := (ADDED_TEXT, Green);
        } else {
          message := (DUPLICATE_TEXT, Orange);
        }
      } else {
        message := (INVALID_TEXT, Red);
      }
    }

    /**
     * Swipe-to-delete: drops the entries at `offsets`, keeping the order of
     * the rest, saves the list and acknowledges in green. The offsets the list
     * view hands over all index into the list (`remove(atOffsets:)` traps
     * otherwise).
     */
    method RemoveWebhook(offsets: set<int>)
      requires forall o :: o in offsets ==> 0 <= o < |savedWebhooks|
      modifies this
      ensures savedWebhooks == WebhookList.RemovedAt(old(savedWebhooks), offsets)
      ensures |savedWebhooks| == |old(savedWebhooks)| - |offsets|
      ensures WebhookList.WellFormed(old(savedWebhooks)) ==> WebhookList.WellFormed(savedWebhooks)
      ensures storedWebhooks == savedWebhooks && webhookURL == old(webhookURL)
      ensures message == (REMOVED_TEXT, Green)
    {
      WebhookList.RemovedAtLength(savedWebhooks, offsets);
      if WebhookList.WellFormed(savedWebhooks) {
        WebhookList.RemovedAtKeepsWellFormed(savedWebhooks, offsets);
      }
      savedWebhooks := WebhookList.RemovedAt(savedWebhooks, offsets);
      storedWebhooks := savedWebhooks;
      message := (REMOVED_TEXT, Green);
    }
  }
}
