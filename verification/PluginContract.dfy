/** What a plugin declares, what the host invokes it with, and the route signatures that connect
    the two. String-typed enumerations keep a constructor for a text outside the enumeration. */
module PluginContract {
  import opened Wrappers

  type RouteID = string

  datatype CommandKind = Slash | UserContext | MessageContext | Group | Subcommand | UnknownCommand(text: string)
  datatype OptionKind =
    | OptString | OptBoolean | OptInteger | OptNumber | OptUser | OptChannel | OptRole | OptMentionable
    | OptAttachment | UnknownOption(text: string)
  datatype ComponentKind =
    | ButtonComponent | StringSelect | UserSelect | RoleSelect | MentionableSelect | ChannelSelect
    | UnknownComponent(text: string)
  datatype ChannelKind =
    | TextChannel | Voice | Category | Announcement | Stage | Forum | Media | UnknownChannel(text: string)
  datatype DeferMode = DeferNone | DeferCreate | DeferUpdate | UnknownDefer(text: string)

  /** A Go float64: order comparisons with NaN are false. */
  datatype Float = Finite(value: real) | Infinite(positive: bool) | NaN {
    predicate LessThan(other: Float) {
      match (this, other)
      case (Finite(a), Finite(b)) => a < b
      case (Infinite(p), Finite(_)) => !p
      case (Finite(_), Infinite(q)) => q
      case (Infinite(p), Infinite(q)) => !p && q
      case _ => false
    }

    predicate Equals(other: Float) {
      !NaN? && this == other
    }
  }

  datatype ChoiceKind = ChoiceString | ChoiceInteger | ChoiceNumber | UnknownChoice(text: string)
  datatype ChoiceValue = ChoiceValue(kind: ChoiceKind, text: string, integer: int, number: Float)
  datatype Choice = Choice(name: string, value: ChoiceValue)

  datatype OptionDefinition = OptionDefinition(
    name: string, kind: OptionKind, description: string, required: bool,
    choices: seq<Choice>, autocomplete: RouteID,
    minInteger: Option<int>, maxInteger: Option<int>,
    minNumber: Option<Float>, maxNumber: Option<Float>,
    minLength: Option<int>, maxLength: Option<int>,
    channelKinds: seq<ChannelKind>)

  datatype CheckKind = GuildOnly | OwnerOnly | HasPermissions | Custom | UnknownCheck(text: string)
  datatype Check = Check(kind: CheckKind, permissions: seq<string>, route: RouteID)

  datatype Command = Command(
    kind: CommandKind, route: RouteID, name: string, description: string, descriptionID: string,
    ephemeral: bool, deferMode: DeferMode, permissions: seq<string>,
    options: seq<OptionDefinition>, children: seq<Command>, checks: seq<Check>)

  datatype Listener = Listener(id: string, event: string, route: RouteID, checks: seq<Check>)
  datatype Task = Task(id: string, schedule: string, route: RouteID, checks: seq<Check>)
  datatype Component = Component(
    id: string, route: RouteID, deferMode: DeferMode, kinds: seq<ComponentKind>, checks: seq<Check>)
  datatype ModalField = ModalField(id: string, required: bool)
  datatype Modal = Modal(id: string, route: RouteID, deferMode: DeferMode, fields: seq<ModalField>, checks: seq<Check>)

  datatype Cog = Cog(
    name: string, checks: seq<Check>, commands: seq<Command>, listeners: seq<Listener>, tasks: seq<Task>,
    components: seq<Component>, modals: seq<Modal>)
  datatype Definition = Definition(cogs: seq<Cog>)

  /** One entry of the compiled catalog. Each constructor carries the fields the matcher reads. */
  datatype Signature =
    | CommandSignature(route: RouteID, deferMode: DeferMode, kind: CommandKind, path: seq<string>,
                       options: seq<OptionDefinition>)
    | AutocompleteSignature(route: RouteID, path: seq<string>, options: seq<OptionDefinition>,
                            optionName: string, optionKind: OptionKind)
    | ComponentSignature(route: RouteID, deferMode: DeferMode, id: string, kinds: seq<ComponentKind>)
    | ModalSignature(route: RouteID, deferMode: DeferMode, id: string, fields: seq<ModalField>)
    | ListenerSignature(route: RouteID, event: string)
    | TaskSignature(route: RouteID, id: string)
    | CheckSignature(route: RouteID)

  /** An option as the host supplies it: validated invocations carry exactly the payload of their kind. */
  datatype Payload =
    | StringPayload(text: string)
    | BooleanPayload(boolean: bool)
    | IntegerPayload(integer: int)
    | NumberPayload(number: Float)
    | UserPayload
    | ChannelPayload(channelKind: ChannelKind, guildID: string)
    | RolePayload(guildID: string)
    | MentionablePayload(roleGuildID: Option<string>)
    | AttachmentPayload
  {
    function Kind(): OptionKind {
      match this
      case StringPayload(_) => OptString
      case BooleanPayload(_) => OptBoolean
      case IntegerPayload(_) => OptInteger
      case NumberPayload(_) => OptNumber
      case UserPayload => OptUser
      case ChannelPayload(_, _) => OptChannel
      case RolePayload(_) => OptRole
      case MentionablePayload(_) => OptMentionable
      case AttachmentPayload => OptAttachment
    }
  }
  datatype OptionValue = OptionValue(name: string, payload: Payload)

  datatype ResponseState = NoResponse | Unacknowledged | DeferredCreate | DeferredUpdate | Responded

  datatype NamedString = NamedString(name: string, value: string)

  /** The route input: exactly one, of the invocation's own kind. */
  datatype Input =
    | CommandInput(kind: CommandKind, path: seq<string>, options: seq<OptionValue>)
    | AutocompleteInput(path: seq<string>, option: string, focused: OptionValue, options: seq<OptionValue>)
    | ComponentInput(id: string, componentKind: ComponentKind)
    | ModalInput(id: string, fields: seq<NamedString>)
    | EventInput(name: string)
    | TaskInput(id: string)
    | CheckInput

  /** `wellFormed` stands for the rest of `Invocation.Validate`, which the matcher does not read. */
  datatype Invocation = Invocation(
    route: RouteID, guildID: Option<string>, response: ResponseState, input: Input, wellFormed: bool)
}
